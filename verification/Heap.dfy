/** src/cmalloc.c: the entry points, on behalf of any thread. Each method below does one step of one
    thread as HeapState defines it, so calls for different threads may come in any order. */
module Heaps {
  import opened Linear
  import opened Words
  import opened RangeMapSpec
  import opened MetadataState
  import opened Spans
  import opened PageState
  import opened PageSteps
  import opened PageHeaps
  import opened SizeClasses
  import opened HeapState
  import opened BinLinks
  import opened HeapRuns

  /** thread_local_bin[c] of thread t. */
  function HeadOf(heads: map<(nat, int), nat>, t: nat, c: int): nat {
    if (t, c) in heads then heads[(t, c)] else 0
  }

  /** Every bin is a well-formed doubly linked list that starts at its head. */
  ghost predicate BinsLinked(h: Heap, links: map<nat, Link>, heads: map<(nat, int), nat>) {
    links.Keys == h.blocks.Keys &&
    forall t, c {:trigger h.Bin(t, c)} :: Chained(h.Bin(t, c), links) && HeadOf(heads, t, c) == Nth(h.Bin(t, c), 0)
  }

  /** Span a has gone back: to the head of its page bin, or to the kernel if it has 8193 pages or more. */
  ghost predicate SpanReturned(s: Pages, s': Pages, m: State, m': State, a: nat) {
    a in s.spans &&
    if s.spans[a].pages < 8193 then BackInBin(s, s', a)
    else Dropped(s, s', a) && RegionGone(m, m', s.spans[a].base) && Head(m'.free, SPAN_BYTES) == a
  }

  class Runtime {
    const pageHeap: PageHeap

    var sizeClassTable: seq<nat>
    // thread_local_bin, by thread and class
    var threadLocalBin: map<(nat, int), nat>

    // the allocator as a value, and the bin links of the spans in use
    ghost var now: Heap
    ghost var links: map<nat, Link>

    /** The span records hold these block parts ... */
    ghost predicate BlocksShown(blocks: map<nat, Blocks>)
      reads pageHeap`rec, pageHeap`repr, pageHeap.repr`nonfull, pageHeap.repr`blockBitmap, pageHeap.repr`blockSize,
            pageHeap.repr`blockCount, pageHeap.repr`freeCount, pageHeap.repr`isInitialized, pageHeap.repr`sizeClass
    {
      forall a {:trigger blocks[a]} :: a in blocks ==>
        a in pageHeap.rec && pageHeap.rec[a] in pageHeap.repr && pageHeap.rec[a].address == a &&
        pageHeap.rec[a].Shows(blocks[a])
    }

    /** ... and these links. */
    ghost predicate LinksShown(links: map<nat, Link>)
      reads pageHeap`rec, pageHeap`repr, pageHeap.repr`nextInClass, pageHeap.repr`prevInClass
    {
      forall a {:trigger links[a]} :: a in links ==>
        a in pageHeap.rec && pageHeap.rec[a] in pageHeap.repr && pageHeap.rec[a].address == a &&
        links[a] == Link(pageHeap.rec[a].nextInClass, pageHeap.rec[a].prevInClass)
    }

    /** The fields hold the value, in or between the parts of a step. */
    ghost predicate Held()
      reads this, pageHeap, pageHeap.meta, pageHeap.repr
    {
      pageHeap.Valid() && now.pages == pageHeap.now && BlocksShown(now.blocks) && LinksShown(links) &&
      BinsLinked(now, links, threadLocalBin) &&
      TableFilled(sizeClassTable)
    }

    ghost predicate Valid()
      reads this, pageHeap, pageHeap.meta, pageHeap.repr
    {
      Held() && now.Inv()
    }

    /** src/cmalloc.c:24-47, once the page size is known. */
    constructor (shift: nat)
      requires 12 <= shift && Pow2(shift) <= ADDRESS_LIMIT
      ensures Valid() && Initial(now) && fresh(pageHeap) && fresh(pageHeap.meta) && fresh(pageHeap.repr)
    {
      pageHeap := new PageHeap(shift);
      sizeClassTable, threadLocalBin := [], map[];
      new;
      hide PageHeap.Valid, Heap.Inv, Initial, BinsLinked, TableFilled, BlocksShown, LinksShown;
      Start();
    }

    /** src/cmalloc.c:31-40: the size-class table. */
    method Start()
      requires pageHeap.Valid() && pageHeap.now.Used() == {} && threadLocalBin == map[]
      modifies this
      ensures Valid() && Initial(now)
    {
      hide PageHeap.Valid, Heap.Inv, LeastFit, Pages.Ok, Sound, BinsLinked, Tiered, Pages.Used;
      ShippedTiered();
      sizeClassTable := FillTable(SIZE_CLASSES);
      now := Heap(pageHeap.now, map[], map[], map[], map[], map[], map[]);
      links := map[];
      pageHeap.Ties();
      pageHeap.IsSound();
      StartsOk(pageHeap.now, pageHeap.meta.Now(), pageHeap.pageMap, pageHeap.bytes);
      InitialInv(now);
      NoBins(now, links, threadLocalBin);
    }

    /** What a record's fields are. */
    lemma {:induction false} RecordSays(a: nat)
      requires BlocksShown(now.blocks) && a in now.blocks
      ensures a in pageHeap.rec && pageHeap.rec[a] in pageHeap.repr && pageHeap.rec[a].freeCount == |now.blocks[a].free|
      ensures pageHeap.rec[a].blockCount == now.blocks[a].count && pageHeap.rec[a].sizeClass == now.blocks[a].cls
      ensures pageHeap.rec[a].blockSize == now.blocks[a].size && pageHeap.rec[a].address == a
    {
      hide Summarises, FreeSet;
      assert now.blocks[a] == now.blocks[a];
    }

    /** One store to a record's next_in_size_class_bin. */
    method SetNext(a: nat, v: nat)
      requires LinksShown(links) && a in links
      modifies this`links, pageHeap.repr`nextInClass
      ensures LinksShown(links) && links == old(links)[a := Link(v, old(links[a].prev))]
    {
      var span := pageHeap.rec[a];
      span.nextInClass := v;
      links := links[a := Link(v, links[a].prev)];
    }

    /** One store to a record's prev_in_size_class_bin. */
    method SetPrev(a: nat, v: nat)
      requires LinksShown(links) && a in links
      modifies this`links, pageHeap.repr`prevInClass
      ensures LinksShown(links) && links == old(links)[a := Link(old(links[a].next), v)]
    {
      var span := pageHeap.rec[a];
      span.prevInClass := v;
      links := links[a := Link(links[a].next, v)];
    }

    /** The stores of src/cmalloc.c:54-62. */
    method PushLinks(t: nat, c: int, a: nat)
      requires LinksShown(links) && a in links && HeadOf(threadLocalBin, t, c) != a
      requires HeadOf(threadLocalBin, t, c) != 0 ==> HeadOf(threadLocalBin, t, c) in links
      modifies this`threadLocalBin, this`links, pageHeap.repr`nextInClass, pageHeap.repr`prevInClass
      ensures LinksShown(links) && links == Prepended(old(links), HeadOf(old(threadLocalBin), t, c), a)
      ensures threadLocalBin == old(threadLocalBin)[(t, c) := a]
    {
      hide Prepended;
      var head := HeadOf(threadLocalBin, t, c);
      PrependedIs(links, head, a);
      SetPrev(a, 0);
      SetNext(a, head);
      if head != 0 {
        SetPrev(head, a);
      }
      threadLocalBin := threadLocalBin[(t, c) := a];
    }

    /** src/cmalloc.c:54-62 */
    method BinPush(t: nat, c: int, a: nat)
      requires Held() && now.BinsInv() && a in links && a != 0
      requires forall t', c' :: a !in now.Bin(t', c')
      modifies this`threadLocalBin, this`links, this`now, pageHeap.repr`nextInClass, pageHeap.repr`prevInClass
      ensures Held() && now == old(now).WithBin(t, c, [a] + old(now).Bin(t, c))
    {
      hide PageHeap.Valid, Heap.BinsInv, Chained, NoDup, BinsLinked, Heap.Bin, Heap.WithBin, TableFilled, Prepended;
      WithBinFields(now, t, c, [a] + now.Bin(t, c));
      BinsPrepended(now, links, threadLocalBin, t, c, a);
      PushLinks(t, c, a);
      now := now.WithBin(t, c, [a] + now.Bin(t, c));
    }

    /** The stores of src/cmalloc.c:64-77. */
    method RemoveLinks(t: nat, c: int, a: nat)
      requires LinksShown(links) && a in links && links[a].prev != a && links[a].next != a
      requires links[a].prev != 0 ==> links[a].prev in links
      requires links[a].next != 0 ==> links[a].next in links && links[a].next != links[a].prev
      modifies this`threadLocalBin, this`links, pageHeap.repr`nextInClass, pageHeap.repr`prevInClass
      ensures LinksShown(links) && links == Detached(old(links), a)
      ensures threadLocalBin == if old(links[a].prev) == 0 then old(threadLocalBin)[(t, c) := old(links[a].next)]
        else old(threadLocalBin)
    {
      hide Detached;
      var prev := pageHeap.rec[a].prevInClass;
      var next := pageHeap.rec[a].nextInClass;
      assert links[a] == Link(next, prev);
      DetachedIs(links, a);
      if prev != 0 {
        SetNext(prev, next);
      } else {
        threadLocalBin := threadLocalBin[(t, c) := next];
      }
      if next != 0 {
        SetPrev(next, prev);
      }
      SetPrev(a, 0);
      SetNext(a, 0);
    }

    /** src/cmalloc.c:64-77 */
    method BinRemove(t: nat, c: int, a: nat)
      requires Held() && now.BinsInv() && a in now.Bin(t, c)
      modifies this`threadLocalBin, this`links, this`now, pageHeap.repr`nextInClass, pageHeap.repr`prevInClass
      ensures Held() && now == old(now).WithBin(t, c, Without(old(now).Bin(t, c), a))
    {
      hide PageHeap.Valid, Heap.BinsInv, Chained, NoDup, Without, BinsLinked, Heap.Bin, Heap.WithBin, TableFilled,
        Detached;
      WithBinFields(now, t, c, Without(now.Bin(t, c), a));
      BinsDetached(now, links, threadLocalBin, t, c, a);
      RemoveLinks(t, c, a);
      now := now.WithBin(t, c, Without(now.Bin(t, c), a));
    }

    /** Take the least free block of a span. */
    method TakeBlock(ghost t: nat, a: nat, ghost request: nat) returns (ptr: nat, ghost i: nat)
      requires Held() && a in now.blocks && now.blocks[a].free != {} && a in pageHeap.spans &&
        now.pages.spans == pageHeap.spans
      modifies this`now, pageHeap.repr`freeCount, pageHeap.repr`nonfull, pageHeap.repr`blockBitmap
      ensures Held() && a in old(now).blocks && Least(old(now).blocks[a].free, i)
      ensures now == Take(old(now), t, a, i, request) && ptr == old(now).Address(a, i)
    {
      hide PageHeap.Valid, BinsLinked, TableFilled, Take, Span.Shows, FreeSet, Summarises, Chained, NoDup, Least;
      ptr, i := LoadBlock(a);
      TakenKept(now, t, a, i, request, links, threadLocalBin);
      now := Take(now, t, a, i, request);
    }

    method LoadBlock(a: nat) returns (ptr: nat, ghost i: nat)
      requires BlocksShown(now.blocks) && a in now.blocks && now.blocks[a].free != {} && a in pageHeap.spans
      modifies pageHeap.repr`freeCount, pageHeap.repr`nonfull, pageHeap.repr`blockBitmap
      ensures Least(now.blocks[a].free, i) && ptr == BlockAddress(pageHeap.spans[a].base, i, now.blocks[a].size)
      ensures BlocksShown(now.blocks[a := now.blocks[a].(free := now.blocks[a].free - {i})])
    {
      hide FreeSet, Summarises;
      var span := pageHeap.rec[a];
      assert now.blocks[a].free == span.Free();
      ptr, i := span.AllocateBlock(pageHeap.spans[a].base);
    }

    /** src/cmalloc.c:82-87 */
    method AllocFast(t: nat, c: int, ghost request: nat) returns (ptr: nat)
      requires Valid() && t !in now.task && ClassFor(request, c) && c != LARGE_CLASS_SIZE_INDEX &&
        HeadOf(threadLocalBin, t, c) != 0
      modifies this`now, this`links, this`threadLocalBin, pageHeap.repr
      ensures Valid() && AllocLocal(old(now), now, t, request, c, ptr)
    {
      hide PageHeap.Valid, Sound, BinsLinked, Heap.SpansInv, Heap.BinsInv, Heap.TasksInv, Heap.LiveInv, Heap.WithBin,
        Without, ClassFor, Take, Least, NoDup, Chained, Span.Shows;
      ghost var h := now;
      var a := HeadOf(threadLocalBin, t, c);
      pageHeap.Ties();
      FastFacts(h, links, threadLocalBin, t, c);
      WithBinFields(h, t, c, Without(h.Bin(t, c), a));
      RecordSays(a);
      if pageHeap.rec[a].freeCount == 1 {
        BinRemove(t, c, a);
      }
      ghost var h1 := now;
      ghost var i;
      ptr, i := TakeBlock(t, a, request);
      IsAllocLocal(h, h1, now, t, request, c, ptr, i);
      AllocLocalInv(h, now, t, request, c, ptr);
    }

    /** src/cmalloc.c:90-92 and 98-100: the critical section of an allocation. */
    method AllocSlow(t: nat, c: int, request: nat) returns (ok: bool, a: nat)
      requires Valid() && t !in now.task && ClassFor(request, c) &&
        (c != LARGE_CLASS_SIZE_INDEX ==> HeadOf(threadLocalBin, t, c) == 0)
      requires request + pageHeap.pageSize <= WORD_LIMIT
      modifies this`now, this`links, pageHeap, pageHeap.meta, pageHeap.repr
      ensures ok ==> t in now.task && now.task[t] == Fetched(a, request) && a in now.blocks && now.blocks[a].cls == c
      ensures ok ==>
        Valid() && AllocLocked(old(now), now, t, request, c) && WatchKept(old(pageHeap.meta.Now()), pageHeap.meta.Now())
      ensures ok ==> BytesSame(pageHeap.pageSize, old(now.pages.table.Keys), old(pageHeap.bytes), pageHeap.bytes)
      ensures ok ==> fresh(pageHeap.repr - old(pageHeap.repr))
    {
      hide PageHeap.Valid, Sound, BinsLinked, Heap.SpansInv, Heap.BinsInv, Heap.TasksInv, Heap.LiveInv, ClassFor, NoDup,
        Chained, WatchKept, BytesSame, FetchSpan, PageCount, Summarises, FreeSet, Allocated, State.Ok, TableFilled,
        IsUpto;
      ghost var h := now;
      pageHeap.Ties();
      ClassForOk(request, c);
      EmptyBin(h, links, threadLocalBin, t, c);
      ok, a := pageHeap.InitializeSpan(c, request);
      if !ok { return; }
      NewSpan(h, pageHeap.now, a, PageCount(SpanBytes(c, request), h.pages.pageSize));
      KeysAgree(h, links, threadLocalBin);
      forall b | b in h.blocks
        ensures b in pageHeap.rec && pageHeap.rec[b] in pageHeap.repr && pageHeap.rec[b].address == b
        ensures pageHeap.rec[b].Shows(h.blocks[b]) &&
          links[b] == Link(pageHeap.rec[b].nextInClass, pageHeap.rec[b].prevInClass)
      {
        assert links[b] == links[b] && h.blocks[b] == h.blocks[b];
        assert pageHeap.rec[b] == old(pageHeap.rec)[b];
        pageHeap.Records(b);
        assert unchanged(pageHeap.rec[b]);
      }
      BookFetched(h, t, c, request, a);
    }

    /** The books after a span has been fetched. */
    ghost method BookFetched(h: Heap, t: nat, c: int, request: nat, a: nat)
      requires pageHeap.Valid() && now == h && h.Inv() && h.pages.pageSize == pageHeap.pageSize && h.pages.pageSize > 0
      requires t !in h.task && ClassFor(request, c) && (c != LARGE_CLASS_SIZE_INDEX ==> h.Bin(t, c) == [])
      requires Allocated(h.pages, pageHeap.now, a, PageCount(SpanBytes(c, request), h.pages.pageSize))
      requires BlocksShown(h.blocks) && LinksShown(links) && BinsLinked(h, links, threadLocalBin) &&
        TableFilled(sizeClassTable)
      requires a in pageHeap.rec && pageHeap.rec[a] in pageHeap.repr && pageHeap.rec[a].address == a && a !in h.blocks
      requires pageHeap.rec[a].Shows(Blocks(c, BlockBytes(c, request), BlocksIn(c), pageHeap.rec[a].Free()))
      requires IsUpto(pageHeap.rec[a].Free(), BlocksIn(c))
      modifies this`now, this`links
      ensures Valid() && AllocLocked(h, now, t, request, c)
      ensures t in now.task && now.task[t] == Fetched(a, request) && a in now.blocks && now.blocks[a].cls == c
    {
      hide PageHeap.Valid, Sound, BinsLinked, Heap.SpansInv, Heap.BinsInv, Heap.TasksInv, Heap.LiveInv, ClassFor, NoDup,
        Chained, FetchSpan, PageCount, Span.Shows, FreeSet, Allocated, State.Ok, TableFilled, IsUpto;
      ghost var free := pageHeap.rec[a].Free();
      now := FetchSpan(h, pageHeap.now, t, request, c, a, free);
      links := links[a := Link(pageHeap.rec[a].nextInClass, pageHeap.rec[a].prevInClass)];
      FetchFields(h, pageHeap.now, t, request, c, a, free);
      BinsExtended(h, now, old(links), links, threadLocalBin, a);
      IsAllocLocked(h, now, t, request, c, a, free);
      AllocLockedInv(h, now, t, request, c);
    }

    /** src/cmalloc.c:94-95 and 102: what the thread does with the span once it has left the lock. */
    method AllocEnd(t: nat, c: int, a: nat) returns (ptr: nat)
      requires Valid() && t in now.task && now.task[t].Fetched? && now.task[t].a == a && a in now.blocks &&
        now.blocks[a].cls == c
      modifies this`now, this`links, this`threadLocalBin, pageHeap.repr
      ensures Valid() && AllocFinish(old(now), now, t, ptr)
    {
      hide PageHeap.Valid, Sound, BinsLinked, Heap.SpansInv, Heap.BinsInv, Heap.TasksInv, Heap.LiveInv, Heap.WithBin,
        Heap.Bin, Take, Least, NoDup, Chained, FreeSet, Summarises, IsUpto, TableFilled, Span.Shows;
      ghost var h := now;
      pageHeap.Ties();
      FetchedFacts(h, links, threadLocalBin, t, a);
      if c != LARGE_CLASS_SIZE_INDEX {
        BinPush(t, c, a);
      }
      WithBinFields(h, t, c, [a] + h.Bin(t, c));
      ghost var h1 := now;
      ghost var i;
      ptr, i := TakeBlock(t, a, h.task[t].request);
      SetTask(h.task - {t}, h.busy - {a});
      IsAllocFinish(h, h1, now, t, a, i, ptr);
      AllocFinishInv(h, now, t, ptr);
    }

    /** Give block i of a span back; any address inside the block will do. */
    method ReturnBlock(a: nat, ptr: nat, ghost i: nat)
      requires Held() && a in now.blocks && i < now.blocks[a].count && i !in now.blocks[a].free
      requires a in pageHeap.spans && now.pages.spans == pageHeap.spans &&
        InBlock(pageHeap.spans[a].base, i, now.blocks[a].size, ptr)
      modifies this`now, pageHeap.repr`freeCount, pageHeap.repr`nonfull, pageHeap.repr`blockBitmap
      ensures Held() && a in old(now).blocks && now == PutBlock(old(now), a, i)
    {
      hide PageHeap.Valid, BinsLinked, TableFilled, PutBlock, Span.Shows, FreeSet, Summarises, Chained, NoDup;
      PutKept(now, a, i, links, threadLocalBin);
      StoreBlock(a, ptr, i);
      now := PutBlock(now, a, i);
    }

    method StoreBlock(a: nat, ptr: nat, ghost i: nat)
      requires BlocksShown(now.blocks) && a in now.blocks && i < now.blocks[a].count && i !in now.blocks[a].free
      requires a in pageHeap.spans && InBlock(pageHeap.spans[a].base, i, now.blocks[a].size, ptr)
      modifies pageHeap.repr`freeCount, pageHeap.repr`nonfull, pageHeap.repr`blockBitmap
      ensures BlocksShown(now.blocks[a := now.blocks[a].(free := now.blocks[a].free + {i})])
    {
      hide FreeSet, Summarises;
      var span := pageHeap.rec[a];
      assert now.blocks[a].free == span.Free();
      span.FreeBlock(pageHeap.spans[a].base, ptr, i);
    }

    /** The thread's task changes. */
    ghost method SetTask(task: map<nat, Task>, busy: map<nat, nat>)
      requires Held()
      modifies this`now
      ensures Held() && now == old(now).(task := task, busy := busy)
    {
      hide PageHeap.Valid, BinsLinked, TableFilled;
      BinsAlike(now, now.(task := task, busy := busy), links, threadLocalBin);
      now := now.(task := task, busy := busy);
    }

    /** src/cmalloc.c:118-123: what the thread does with one of its own spans without the lock. */
    method FreeFast(t: nat, ptr: nat, a: nat, ghost p: nat) returns (empty: bool)
      requires Valid() && t !in now.task && now.Inside(p, ptr) && now.live[p].a == a && a in now.owner &&
        now.live[p].thread == t
      modifies this`now, this`links, this`threadLocalBin, pageHeap.repr
      ensures Valid() && FreeLocal(old(now), now, t, p) && empty == old(now.Empties(p)) && now.pages == old(now.pages)
      ensures if empty then t in now.task && now.task[t] == Returning(a) else now.task == old(now.task)
    {
      hide PageHeap.Valid, Sound, BinsLinked, Heap.SpansInv, Heap.BinsInv, Heap.TasksInv, Heap.LiveInv, Heap.WithBin,
        Heap.Bin, NoDup, Chained, FreeSet, Summarises, IsUpto, TableFilled, PutBlock, FreedLocal, Without, Span.Shows;
      ghost var h, i := now, now.live[p].i;
      pageHeap.Ties();
      FreeFacts(h, links, threadLocalBin, t, p, ptr);
      RecordSays(a);
      var c := pageHeap.rec[a].sizeClass;
      if pageHeap.rec[a].freeCount == 0 {
        BinPush(t, c, a);
      }
      ghost var h1 := now;
      FreeMiddle(h, h1, t, a, i);
      ReturnBlock(a, ptr, i);
      PutKept(h1, a, i, links, threadLocalBin);
      RecordSays(a);
      empty := pageHeap.rec[a].freeCount == pageHeap.rec[a].blockCount;
      if empty {
        BinRemove(t, c, a);
        SetTask(h.task[t := Returning(a)], h.busy[a := t]);
      }
      FreeDone(h, h1, now, t, a, i, p, links, threadLocalBin, empty);
    }

    /** src/cmalloc.c:111-113 and 125-127: the critical section of a deallocation. */
    method FreeSlow(t: nat, a: nat) returns (ok: bool)
      requires Valid() && t in now.task && now.task[t] == Returning(a)
      requires forall k :: k in pageHeap.meta.watched && k in now.pages.table ==> now.pages.table[k] != a
      modifies this`now, this`links, pageHeap, pageHeap.meta, pageHeap.repr
      ensures ok ==> Valid() && FreeLocked(old(now), now, t) && WatchKept(old(pageHeap.meta.Now()), pageHeap.meta.Now())
      ensures ok ==> BytesSame(pageHeap.pageSize, now.pages.table.Keys, old(pageHeap.bytes), pageHeap.bytes)
      ensures ok ==> pageHeap.repr == old(pageHeap.repr)
      ensures ok ==> SpanReturned(old(now.pages), now.pages, old(pageHeap.meta.Now()), pageHeap.meta.Now(), a)
    {
      hide PageHeap.Valid, Sound, BinsLinked, Heap.SpansInv, Heap.BinsInv, Heap.TasksInv, Heap.LiveInv, NoDup, Chained,
        WatchKept, BytesSame, GivenBack, Summarises, FreeSet, Released, State.Ok, TableFilled, IsUpto, Pages.Used;
      hide BackInBin, Dropped, RegionGone, Span.Shows;
      ghost var h := now;
      pageHeap.Ties();
      ReturningFacts(h, links, threadLocalBin, t, a);
      RecordSays(a);
      var span := pageHeap.rec[a];
      ok := pageHeap.CacheSpan(span);
      if !ok { return; }
      ReleasedUsed(h, pageHeap.now, a);
      forall b | b in h.blocks && b != a
        ensures b in pageHeap.rec && pageHeap.rec[b] in pageHeap.repr && pageHeap.rec[b].address == b
        ensures pageHeap.rec[b].Shows(h.blocks[b]) &&
          links[b] == Link(pageHeap.rec[b].nextInClass, pageHeap.rec[b].prevInClass)
      {
        assert links[b] == links[b] && h.blocks[b] == h.blocks[b];
        pageHeap.UsedRecord(b);
        assert pageHeap.rec[b] == old(pageHeap.rec)[b];
      }
      BookCached(h, t, a);
    }

    /** The books after a span has been cached. */
    ghost method BookCached(h: Heap, t: nat, a: nat)
      requires pageHeap.Valid() && now == h && h.Inv() && t in h.task && h.task[t] == Returning(a) &&
        Released(h.pages, pageHeap.now, a)
      requires BlocksShown(h.blocks - {a}) && LinksShown(links - {a}) && BinsLinked(h, links, threadLocalBin) &&
        TableFilled(sizeClassTable)
      requires forall t', c :: a !in h.Bin(t', c)
      modifies this`now, this`links
      ensures Valid() && FreeLocked(h, now, t)
    {
      hide PageHeap.Valid, Sound, BinsLinked, Heap.SpansInv, Heap.BinsInv, Heap.TasksInv, Heap.LiveInv, NoDup, Chained,
        GivenBack, Span.Shows, Released, TableFilled;
      now := GivenBack(h, pageHeap.now, t, a);
      links := links - {a};
      BackFields(h, pageHeap.now, t, a);
      BinsShrunk(h, now, old(links), links, threadLocalBin, a);
      LockedFreed(h, now, t);
    }

    /** src/cmalloc.c:79-103 */
    method Cmalloc(t: nat, size: nat) returns (ok: bool, ptr: nat)
      requires Valid() && t !in now.task && size + pageHeap.pageSize <= WORD_LIMIT
      modifies this`now, this`links, this`threadLocalBin, pageHeap, pageHeap.meta, pageHeap.repr
      ensures ok ==>
        Valid() && HandedOut(old(now), now, t, size, ptr) && exists c: int :: AllocRun(old(now), now, t, size, c, ptr)
      ensures ok ==> size <= SizeAt(now, ptr) && (size >= 9 ==> SizeAt(now, ptr) <= 2 * (size - 1))
      ensures ok ==> forall i {:trigger SIZE_CLASSES[i]} ::
        0 <= i < |SIZE_CLASSES| && size <= SIZE_CLASSES[i] ==> SizeAt(now, ptr) <= SIZE_CLASSES[i]
      ensures ok && size > 32768 ==> SizeAt(now, ptr) == size
      ensures ok ==> Served(old(now), now, t, size, ptr)
      ensures ok && now.live[ptr].a in old(now.blocks) ==> pageHeap.meta.Now() == old(pageHeap.meta.Now())
      ensures ok ==> MayFree(t, ptr)
      ensures ok ==> WatchKept(old(pageHeap.meta.Now()), pageHeap.meta.Now())
      ensures ok ==> BytesSame(pageHeap.pageSize, old(now.pages.table.Keys), old(pageHeap.bytes), pageHeap.bytes)
      ensures ok ==> fresh(pageHeap.repr - old(pageHeap.repr))
    {
      hide PageHeap.Valid, BlocksShown, LinksShown, Heap.Inv, BinsLinked, HandedOut, WatchKept, BytesSame, State.Ok,
        ClassFor, AllocLocal, AllocLocked, AllocFinish, TableFilled, Served, SizeAt;
      ghost var h, m, pm, b := now, pageHeap.meta.Now(), pageHeap.pageMap, pageHeap.bytes;
      pageHeap.IsSound();
      ok := true;
      ClassChosen(sizeClassTable, size);
      var c := ClassIndex(sizeClassTable, size);
      if c != LARGE_CLASS_SIZE_INDEX && HeadOf(threadLocalBin, t, c) != 0 {
        ptr := AllocFast(t, c, size);
        AllocRunOut(h, now, t, size, c, ptr);
        WatchSame(m);
        BytesUnchanged(pageHeap.pageSize, h.pages.table.Keys, pageHeap.bytes);
        FreeAtOnce(h, m, pm, b, t, size, c, ptr);
        SnugAt(h, now, t, size, ptr);
        AllocRunServes(h, now, t, size, c, ptr);
        return;
      }
      var a;
      ok, a := AllocSlow(t, c, size);
      if !ok { return ok, 0; }
      ghost var h1 := now;
      ptr := AllocEnd(t, c, a);
      AllocRunOut(h, now, t, size, c, ptr);
      FreeAtOnce(h, m, pm, b, t, size, c, ptr);
      SnugAt(h, now, t, size, ptr);
      SlowIsNew(h, h1, now, t, size, c, ptr);
      AllocRunServes(h, now, t, size, c, ptr);
    }

    /** The thread may free what it has just been handed. */
    lemma {:induction false} FreeAtOnce(h: Heap, m: State, pageMap: nat, bytes: map<nat, nat>, t: nat, size: nat,
            c: int, p: nat)
      requires h.Inv() && Valid() && AllocRun(h, now, t, size, c, p) && HandedOut(h, now, t, size, p)
      requires Sound(h.pages, m, pageMap, bytes) && WatchKept(m, pageHeap.meta.Now())
      ensures MayFree(t, p)
    {
      hide PageHeap.Valid, BlocksShown, LinksShown, BinsLinked, TableFilled, Sound, AllocRun, WatchKept, SameUsed,
        Pages.Ok;
      hide Heap.SpanInv, Heap.BinsInv, Heap.TasksInv, Heap.LiveInv, IsUpto;
      if now.Empties(p) {
        AloneIsNew(h, now, t, size, c, p);
        AllocRunPages(h, now, t, size, c, p);
        UnreadNew(h, now, m, pageHeap.meta.Now(), pageMap, bytes, now.live[p].a);
      }
    }

    /** Thread t may free live block p. */
    ghost predicate MayFree(t: nat, p: nat)
      reads this`now, pageHeap.meta`watched
    {
      Freeable(now, pageHeap.meta.watched, t, p)
    }

    /** src/cmalloc.c:105-129. ptr is any address in the block p. */
    method Cfree(t: nat, ptr: nat, ghost p: nat) returns (ok: bool)
      requires Valid() && t !in now.task
      requires ptr != 0 ==> now.Inside(p, ptr) && MayFree(t, p)
      modifies this`now, this`links, this`threadLocalBin, pageHeap, pageHeap.meta, pageHeap.repr
      ensures ok ==>
        Valid() && if ptr == 0 then now == old(now) else TakenBack(old(now), now, p) && FreeRun(old(now), now, t, p)
      ensures ok ==> BytesSame(pageHeap.pageSize, now.pages.table.Keys, old(pageHeap.bytes), pageHeap.bytes)
      ensures ok ==> WatchKept(old(pageHeap.meta.Now()), pageHeap.meta.Now()) && pageHeap.repr == old(pageHeap.repr)
      ensures ok && ptr != 0 ==> BinSettled(old(now), now, t, p)
      ensures ok && ptr != 0 ==>
        if old(now.Empties(p)) then
          SpanReturned(old(now.pages), now.pages, old(pageHeap.meta.Now()), pageHeap.meta.Now(), old(now.live[p].a))
        else now.pages == old(now.pages) && pageHeap.meta.Now() == old(pageHeap.meta.Now())
    {
      hide PageHeap.Valid, BlocksShown, LinksShown, Heap.Inv, BinsLinked, TakenBack, WatchKept, BytesSame, State.Ok,
        FreeLocal, FreeLarge, FreeLocked, TableFilled, FreedLarge, Quotient, BinSettled, SpanReturned;
      ghost var h, m := now, pageHeap.meta.Now();
      WatchSame(m);
      if ptr == 0 {
        BytesUnchanged(pageHeap.pageSize, now.pages.table.Keys, pageHeap.bytes);
        return true;
      }
      var a := FindSpan(ptr, p);
      RecordSays(a);
      if pageHeap.rec[a].sizeClass == LARGE_CLASS_SIZE_INDEX {
        SpanIsLarge(h, p);
        LargeEmpties(h, p);
        StartLarge(t, p);
        WasLive(h, now, t, p);
        ok := FreeSlow(t, a);
      } else {
        SpanIsLarge(h, p);
        var empty := FreeFast(t, ptr, a, p);
        ok := true;
        if empty {
          ok := FreeSlow(t, a);
        } else {
          BytesUnchanged(pageHeap.pageSize, now.pages.table.Keys, pageHeap.bytes);
        }
      }
      if ok {
        FreeRunOut(h, now, t, p);
        FreeRunBins(h, now, t, p);
      }
    }

    /** cmalloc_get_span of an address inside a live block. */
    method FindSpan(ptr: nat, ghost p: nat) returns (a: nat)
      requires Valid() && now.Inside(p, ptr)
      ensures p in now.live && a == now.live[p].a && a in now.blocks
    {
      hide PageHeap.Valid, BlocksShown, LinksShown, Heap.Inv, BinsLinked, TableFilled, Quotient;
      pageHeap.Ties();
      LiveSafe(now, p, ptr);
      InsidePage(now, p, ptr);
      pageHeap.MapThere(Quotient(ptr, pageHeap.pageSize));
      a := pageHeap.GetSpan(ptr);
    }

    /** The thread sets about giving a large block back. */
    ghost method StartLarge(t: nat, p: nat)
      requires Valid() && t !in now.task && p in now.live && now.live[p].a !in now.owner
      modifies this`now
      ensures Valid() && FreeLarge(old(now), now, t, p) &&
        now.task == old(now.task)[t := Returning(old(now.live[p].a))] && now.pages == old(now.pages)
    {
      hide PageHeap.Valid, BlocksShown, LinksShown, Heap.Inv, BinsLinked, TableFilled;
      ghost var h := now;
      FreeLargeInv(h, t, p);
      LargeFields(h, t, p);
      BinsAlike(h, FreedLarge(h, t, p), links, threadLocalBin);
      now := FreedLarge(h, t, p);
    }

    /** memset(ptr, 0, n) in a live block. */
    method ClearBytes(ptr: nat, n: nat)
      requires Valid() && forall x :: ptr <= x < ptr + n ==> x in pageHeap.bytes
      modifies pageHeap`bytes
      ensures Valid() && pageHeap.bytes.Keys == old(pageHeap.bytes.Keys)
      ensures forall x ::
        x in pageHeap.bytes ==> pageHeap.bytes[x] == if ptr <= x < ptr + n then 0 else old(pageHeap.bytes)[x]
    {
      hide BlocksShown, LinksShown, Heap.Inv, BinsLinked, TableFilled, PageHeap.Valid;
      for i := 0 to n
        invariant Valid() && pageHeap.bytes.Keys == old(pageHeap.bytes.Keys)
        invariant forall x ::
          x in pageHeap.bytes ==> pageHeap.bytes[x] == if ptr <= x < ptr + i then 0 else old(pageHeap.bytes)[x]
      {
        pageHeap.StoreByte(ptr + i, 0);
      }
    }

    /** memcpy(to, from, n) between disjoint ranges. */
    method CopyBytes(to: nat, from: nat, n: nat)
      requires Valid() && (to + n <= from || from + n <= to)
      requires forall x :: to <= x < to + n || from <= x < from + n ==> x in pageHeap.bytes
      modifies pageHeap`bytes
      ensures Valid() && Copied(old(pageHeap.bytes), pageHeap.bytes, to, from, n)
    {
      hide BlocksShown, LinksShown, Heap.Inv, BinsLinked, TableFilled, PageHeap.Valid, Copied;
      CopiedNone(pageHeap.bytes, to, from);
      for i := 0 to n
        invariant Valid() && Copied(old(pageHeap.bytes), pageHeap.bytes, to, from, i)
      {
        CopiedMore(old(pageHeap.bytes), pageHeap.bytes, to, from, i, n);
        pageHeap.StoreByte(to + i, pageHeap.bytes[from + i]);
      }
    }

    /** src/cmalloc.c:131-144. NULL on exactly the products that exceed SIZE_MAX; otherwise exactly
        num * size bytes are zeroed. */
    method Ccalloc(t: nat, num: Word, size: Word) returns (ok: bool, ptr: nat)
      requires Valid() && t !in now.task
      requires Times(num, size) <= MAX_WORD ==> Times(num, size) + pageHeap.pageSize <= WORD_LIMIT
      modifies this`now, this`links, this`threadLocalBin, pageHeap, pageHeap.meta, pageHeap.repr
      ensures ok ==> Valid() && (ptr == 0 <==> Times(num, size) > MAX_WORD)
      ensures ok && ptr == 0 ==> now == old(now) && pageHeap.bytes == old(pageHeap.bytes)
      ensures ok && ptr != 0 ==> HandedOut(old(now), now, t, Times(num, size), ptr) && MayFree(t, ptr)
      ensures ok && ptr != 0 ==> Served(old(now), now, t, Times(num, size), ptr)
      ensures ok && ptr != 0 ==>
        forall x :: ptr <= x < ptr + Times(num, size) ==> x in pageHeap.bytes && pageHeap.bytes[x] == 0
      ensures ok && ptr != 0 ==>
        SameBut(pageHeap.pageSize, old(now.pages.table.Keys), old(pageHeap.bytes), pageHeap.bytes, ptr,
            Times(num, size))
      ensures ok ==> WatchKept(old(pageHeap.meta.Now()), pageHeap.meta.Now())
    {
      hide PageHeap.Valid, BlocksShown, LinksShown, Heap.Inv, BinsLinked, TableFilled, HandedOut, WatchKept, BytesSame,
        AllocRun, InPage, Times, Served, SizeAt;
      WatchSame(pageHeap.meta.Now());
      var tooLarge, total := Product(num, size);
      if tooLarge {
        return true, 0;
      }
      ok, ptr := Cmalloc(t, total);
      if !ok { return; }
      ghost var bytes := pageHeap.bytes;
      NewBlock(old(now), t, total, ptr);
      if total != 0 {
        ClearBytes(ptr, total);
      }
      ZeroedOnly(pageHeap.pageSize, old(now.pages.table.Keys), old(pageHeap.bytes), bytes, pageHeap.bytes, ptr, total);
    }

    /** The overflow test and the product on 64 bits. */
    method Product(num: Word, size: Word) returns (tooLarge: bool, total: Word)
      ensures tooLarge <==> Times(num, size) > MAX_WORD
      ensures !tooLarge ==> total == Times(num, size)
    {
      hide Times;
      Overflow(num, size, MAX_WORD);
      if num != 0 && size > MAX_WORD / num {
        return true, 0;
      }
      return false, num * size % WORD_LIMIT;
    }

    lemma {:induction false} NewBlock(h: Heap, t: nat, request: nat, p: nat)
      requires Valid() && HandedOut(h, now, t, request, p)
      ensures p != 0 && p in now.live && request <= SizeAt(now, p)
      ensures forall x :: p <= x < p + SizeAt(now, p) ==> now.Inside(p, x) && x in pageHeap.bytes
    {
      hide PageHeap.Valid, BlocksShown, LinksShown, Heap.Inv, BinsLinked, TableFilled, Sound;
      pageHeap.IsSound();
      LiveThere(now, p, pageHeap.meta.Now(), pageHeap.pageMap, pageHeap.bytes);
    }

    /** src/cmalloc.c:146-165 */
    method Crealloc(t: nat, ptr: nat, size: nat) returns (ok: bool, r: nat)
      requires Valid() && t !in now.task && size + pageHeap.pageSize <= WORD_LIMIT
      requires ptr != 0 ==> ptr in now.live && (size == 0 || SizeAt(now, ptr) < size ==> MayFree(t, ptr))
      modifies this`now, this`links, this`threadLocalBin, pageHeap, pageHeap.meta, pageHeap.repr
      ensures ok ==> Valid() && WatchKept(old(pageHeap.meta.Now()), pageHeap.meta.Now())
      ensures ok && ptr == 0 ==>
        HandedOut(old(now), now, t, size, r) && Served(old(now), now, t, size, r) && MayFree(t, r)
      ensures ok && ptr != 0 && size == 0 ==>
        r == 0 && TakenBack(old(now), now, ptr) && FreeRun(old(now), now, t, ptr) && BinSettled(old(now), now, t, ptr)
      ensures ok && ptr != 0 && 0 < size <= old(SizeAt(now, ptr)) ==>
        r == ptr && now == old(now) && pageHeap.bytes == old(pageHeap.bytes) &&
        pageHeap.meta.Now() == old(pageHeap.meta.Now())
      ensures ok && ptr != 0 && old(SizeAt(now, ptr)) < size ==>
        Moved(old(now), now, t, ptr, r, size) && size <= SizeAt(now, r) && MayFree(t, r) &&
        Prefix(old(pageHeap.bytes), ptr, pageHeap.bytes, r, old(SizeAt(now, ptr))) &&
        MovedBy(old(now), now, t, ptr, r, size) &&
        SameBut(pageHeap.pageSize, old(now.pages.table.Keys) * now.pages.table.Keys, old(pageHeap.bytes),
            pageHeap.bytes, r, old(SizeAt(now, ptr)))
      ensures ok ==> KeptBut(old(now), old(pageHeap.bytes), pageHeap.bytes, ptr)
    {
      hide PageHeap.Valid, BlocksShown, LinksShown, Heap.Inv, BinsLinked, TableFilled, HandedOut, TakenBack, WatchKept,
        BytesSame, AllocRun, FreeRun, Moved, Prefix, KeptBut, Sound, Heap.Inside, SizeAt, Span.Shows, Served,
        BinSettled, MovedBy, SpanReturned, SameBut;
      ghost var h, b, m := now, pageHeap.bytes, pageHeap.meta.Now();
      ghost var pm := pageHeap.pageMap;
      pageHeap.IsSound();
      WatchSame(m);
      if ptr == 0 {
        pageHeap.Ties();
        ok, r := Cmalloc(t, size);
        if ok { KeptByAlloc(h, now, t, size, r, m, pm, b, pageHeap.bytes, ptr); }
        return;
      }
      LiveThere(h, ptr, m, pm, b);
      if size == 0 {
        pageHeap.Ties();
        ok := Cfree(t, ptr, ptr);
        r := 0;
        if ok {
          pageHeap.Ties();
          KeptByFree(h, now, ptr, m, pm, b, pageHeap.bytes);
        }
        return;
      }
      var a := FindSpan(ptr, ptr);
      RecordSays(a);
      SizeHere(h, ptr);
      if pageHeap.rec[a].blockSize >= size {
        BytesAlike(h, h, m, pm, b);
        BlocksKept(h, h, b, b, ptr);
        return true, ptr;
      }
      ok, r := MoveBlock(t, ptr, a, size);
    }

    /** src/cmalloc.c:158-164 */
    method MoveBlock(t: nat, ptr: nat, a: nat, size: nat) returns (ok: bool, r: nat)
      requires Valid() && t !in now.task && size + pageHeap.pageSize <= WORD_LIMIT && SizeAt(now, ptr) < size
      requires ptr != 0 && MayFree(t, ptr) && now.live[ptr].a == a && a in now.blocks
      modifies this`now, this`links, this`threadLocalBin, pageHeap, pageHeap.meta, pageHeap.repr
      ensures ok ==> Valid() && WatchKept(old(pageHeap.meta.Now()), pageHeap.meta.Now())
      ensures ok ==>
        Moved(old(now), now, t, ptr, r, size) && size <= SizeAt(now, r) && MayFree(t, r) &&
        Prefix(old(pageHeap.bytes), ptr, pageHeap.bytes, r, old(SizeAt(now, ptr)))
      ensures ok ==> MovedBy(old(now), now, t, ptr, r, size)
      ensures ok ==>
        SameBut(pageHeap.pageSize, old(now.pages.table.Keys) * now.pages.table.Keys, old(pageHeap.bytes),
            pageHeap.bytes, r, old(SizeAt(now, ptr)))
      ensures ok ==> KeptBut(old(now), old(pageHeap.bytes), pageHeap.bytes, ptr)
    {
      hide PageHeap.Valid, BlocksShown, LinksShown, Heap.Inv, BinsLinked, TableFilled, HandedOut, TakenBack, WatchKept,
        BytesSame, AllocRun, FreeRun, Moved, Prefix, KeptBut, Sound, Heap.Inside, SizeAt, Span.Shows, Copied, Freeable,
        Served, BinSettled, MovedBy, SpanReturned, SameBut;
      ghost var h, b, m, pm := now, pageHeap.bytes, pageHeap.meta.Now(), pageHeap.pageMap;
      pageHeap.IsSound();
      pageHeap.Ties();
      ok, r := Cmalloc(t, size);
      if !ok { return; }
      ghost var h1, b1, m1 := now, pageHeap.bytes, pageHeap.meta.Now();
      pageHeap.IsSound();
      pageHeap.Ties();
      AllocBytes(h, h1, m, pm, b, b1);
      MoveReady(h, h1, t, ptr, r, size, m, m1, pm, pageHeap.pageMap, b, b1);
      RecordSays(a);
      CopyBytes(r, ptr, pageHeap.rec[a].blockSize);
      ghost var b2, pm2 := pageHeap.bytes, pageHeap.pageMap;
      pageHeap.IsSound();
      ok := Cfree(t, ptr, ptr);
      if ok {
        pageHeap.Ties();
        WatchTwice(m, m1, pageHeap.meta.Now());
        IsMovedBy(h, h1, now, t, ptr, r, size);
        MovedOnly(pageHeap.pageSize, h.pages.table.Keys, now.pages.table.Keys, b, b1, b2, pageHeap.bytes, r, ptr,
          SizeAt(h, ptr));
        MoveDone(h, h1, now, t, ptr, r, size, m1, pageHeap.meta.Now(), pm2, b, b1, b2, pageHeap.bytes);
      }
    }

    // ---- what the steps have kept ----

    /** A thread, without the lock, sets about looking up an address inside a live block. */
    ghost method Watch(p: nat, x: nat)
      requires Valid() && now.Inside(p, x)
      modifies pageHeap.meta`watchedRoot, pageHeap.meta`watched, pageHeap.meta`trace
      ensures Valid() && pageHeap.meta.trace == [pageHeap.meta.mem]
      ensures pageHeap.pageSize > 0 && pageHeap.meta.watched.Keys == {Quotient(x, pageHeap.pageSize)}
    {
      hide PageHeap.Valid, BlocksShown, LinksShown, Heap.Inv, BinsLinked, TableFilled, Quotient, Pages.Used;
      pageHeap.Ties();
      LookedUp(now, p, x);
      pageHeap.MapThere(Quotient(x, pageHeap.pageSize));
      pageHeap.Watch({Quotient(x, pageHeap.pageSize)});
    }

    /** Whatever the other threads do meanwhile: if the block is still live, the lookup finds its span,
        on whichever memories since then its six loads fall. */
    lemma {:induction false} LiveLookup(p: nat, x: nat, loads: seq<Mem>)
      requires Valid() && now.Inside(p, x) && |loads| == 6 && forall i :: 0 <= i < 6 ==> loads[i] in pageHeap.meta.trace
      requires pageHeap.pageSize > 0 && Quotient(x, pageHeap.pageSize) in pageHeap.meta.watched
      ensures Reader(loads, pageHeap.pageMap, Quotient(x, pageHeap.pageSize)) == now.live[p].a
    {
      hide PageHeap.Valid, BlocksShown, LinksShown, Heap.Inv, BinsLinked, TableFilled, Quotient, Pages.Used, Reader;
      pageHeap.Ties();
      LookedUp(now, p, x);
      pageHeap.LockFreeLookup(Quotient(x, pageHeap.pageSize), loads);
    }

    /** Every byte of a live block lies in a mapped region that holds no metadata. */
    lemma {:induction false} LiveMapped(p: nat, x: nat) returns (b: nat)
      requires Valid() && now.Inside(p, x)
      ensures b in pageHeap.meta.mapped && b !in pageHeap.meta.chunks && b <= x < b + pageHeap.meta.mapped[b]
    {
      hide PageHeap.Valid, BlocksShown, LinksShown, Heap.Inv, BinsLinked, TableFilled, Sound, Quotient;
      pageHeap.IsSound();
      InsidePage(now, p, x);
      ghost var k := Quotient(x, now.pages.pageSize);
      b := PageMapped(now.pages, pageHeap.meta.Now(), pageHeap.pageMap, pageHeap.bytes, k, x);
    }

    /** Once everything is freed, the kernel's regions are the metadata chunks and the data chunks: every
        other mapping has been unmapped. */
    lemma {:induction false} NothingLeft()
      requires Valid() && now.live == map[] && now.task == map[]
      ensures pageHeap.meta.mapped.Keys ==
        pageHeap.meta.chunks + set c | c in now.pages.tiles :: Times(c, pageHeap.pageSize)
      ensures pageHeap.spans.Keys == now.pages.place.Keys
    {
      hide PageHeap.Valid, BlocksShown, LinksShown, Heap.Inv, BinsLinked, TableFilled;
      pageHeap.Ties();
      pageHeap.KernelRegions();
      AllReturned(now);
    }
  }

  /** The page of an address in a live block belongs to the block's span. */
  lemma {:induction false} LookedUp(h: Heap, p: nat, x: nat)
    requires h.Inv() && h.Inside(p, x)
    ensures h.pages.pageSize > 0
    ensures var k := Quotient(x, h.pages.pageSize);
      k in h.pages.table && p in h.live && h.pages.table[k] == h.live[p].a && h.live[p].a in h.pages.Used()
  {
    hide Pages.Ok, Heap.BinsInv, Heap.TasksInv, Heap.SpanInv, BlockAddress, Quotient, Pages.Used;
    LiveSafe(h, p, x);
    InsidePage(h, p, x);
  }

  /** The lookup table is the one the start-up loop computes for the shipped classes. */
  ghost predicate TableFilled(table: seq<nat>) {
    |table| == SIZE_CLASS_TABLE_LEN && forall b :: 0 <= b < |table| ==> LeastFit(SIZE_CLASSES, 16 * b, table[b])
  }

  lemma {:induction false} StartsOk(s: Pages, m: State, pageMap: nat, bytes: map<nat, nat>)
    requires Sound(s, m, pageMap, bytes)
    ensures s.Ok()
  {}

  lemma {:induction false} NoBins(h: Heap, links: map<nat, Link>, heads: map<(nat, int), nat>)
    requires h.bins == map[] && h.blocks == map[] && links == map[] && heads == map[]
    ensures BinsLinked(h, links, heads)
  {}

  lemma {:induction false} BinsPrepended(h: Heap, links: map<nat, Link>, heads: map<(nat, int), nat>, t: nat, c: int,
          a: nat)
    requires BinsLinked(h, links, heads) && h.BinsInv() && a in links && a != 0 && forall t', c' :: a !in h.Bin(t', c')
    ensures HeadOf(heads, t, c) == Nth(h.Bin(t, c), 0) && HeadOf(heads, t, c) != a
    ensures HeadOf(heads, t, c) != 0 ==> HeadOf(heads, t, c) in links
    ensures BinsLinked(h.WithBin(t, c, [a] + h.Bin(t, c)), Prepended(links, HeadOf(heads, t, c), a), heads[(t, c) := a])
  {
    hide Chained, NoDup;
    var l := h.Bin(t, c);
    var h', m := h.WithBin(t, c, [a] + l), Prepended(links, Nth(l, 0), a);
    HeadIn(l);
    HeadNamed(l, links);
    forall t', c' ensures Chained(h'.Bin(t', c'), m) && HeadOf(heads[(t, c) := a], t', c') == Nth(h'.Bin(t', c'), 0) {
      if t' == t && c' == c {
        PushChained(l, links, a);
      } else {
        assert h'.Bin(t', c') == h.Bin(t', c');
        PushElsewhere(l, links, a, h.Bin(t', c'));
      }
    }
  }

  lemma {:induction false} HeadNamed(l: seq<nat>, links: map<nat, Link>)
    requires Chained(l, links)
    ensures l != [] ==> l[0] in links && l[0] != 0
  {}

  lemma {:induction false} BinsDetached(h: Heap, links: map<nat, Link>, heads: map<(nat, int), nat>, t: nat, c: int,
          a: nat)
    requires BinsLinked(h, links, heads) && h.BinsInv() && a in h.Bin(t, c)
    ensures a in links && links[a].prev != a && links[a].next != a
    ensures links[a].prev != 0 ==> links[a].prev in links
    ensures links[a].next != 0 ==> links[a].next in links && links[a].next != links[a].prev
    ensures BinsLinked(h.WithBin(t, c, Without(h.Bin(t, c), a)), Detached(links, a),
      if links[a].prev == 0 then heads[(t, c) := links[a].next] else heads)
  {
    hide Chained, NoDup, Without, Detached;
    var l := h.Bin(t, c);
    RemoveChained(l, links, a);
    SelfLinks(l, links, a);
    DetachedKeys(links, a);
    var h', m := h.WithBin(t, c, Without(l, a)), Detached(links, a);
    var heads' := if links[a].prev == 0 then heads[(t, c) := links[a].next] else heads;
    forall t', c' ensures Chained(h'.Bin(t', c'), m) && HeadOf(heads', t', c') == Nth(h'.Bin(t', c'), 0) {
      if t' != t || c' != c {
        assert h'.Bin(t', c') == h.Bin(t', c');
        RemoveElsewhere(l, links, a, h.Bin(t', c'));
      }
    }
  }

  lemma {:induction false} SelfLinks(l: seq<nat>, links: map<nat, Link>, a: nat)
    requires Chained(l, links) && a in l
    ensures a in links && a != 0 && links[a].prev != a && links[a].next != a
  {
    var i := Place(l, a);
    Neighbours(l, links, i);
  }

  lemma {:induction false} DetachedKeys(links: map<nat, Link>, a: nat)
    requires a in links
    ensures Detached(links, a).Keys == links.Keys
  {}

  lemma {:induction false} WithBinFields(h: Heap, t: nat, c: int, l: seq<nat>)
    ensures var h' := h.WithBin(t, c, l);
      h' == h.(bins := h'.bins) && forall a, i: nat :: h'.Address(a, i) == h.Address(a, i)
  {}

  lemma {:induction false} FastFacts(h: Heap, links: map<nat, Link>, heads: map<(nat, int), nat>, t: nat, c: int)
    requires h.Inv() && BinsLinked(h, links, heads) && HeadOf(heads, t, c) != 0
    ensures var a := HeadOf(heads, t, c);
      h.Bin(t, c) != [] && a == h.Bin(t, c)[0] && a in h.Bin(t, c) && a in h.blocks && h.blocks[a].free != {} &&
      a in h.pages.spans
  {
    hide Pages.Ok, NoDup, Chained;
    assert h.Bin(t, c) != [];
    HeadIn(h.Bin(t, c));
    assert h.SpanInv(h.Bin(t, c)[0]);
  }

  lemma {:induction false} TakenKept(h: Heap, t: nat, a: nat, i: nat, request: nat, links: map<nat, Link>,
          heads: map<(nat, int), nat>)
    requires a in h.blocks && BinsLinked(h, links, heads)
    ensures BinsLinked(Take(h, t, a, i, request), links, heads) && Take(h, t, a, i, request).pages == h.pages
    ensures Take(h, t, a, i, request).blocks == h.blocks[a := h.blocks[a].(free := h.blocks[a].free - {i})]
  {
    BinsAlike(h, Take(h, t, a, i, request), links, heads);
  }

  lemma {:induction false} BinsAlike(h: Heap, h': Heap, links: map<nat, Link>, heads: map<(nat, int), nat>)
    requires BinsLinked(h, links, heads) && h'.bins == h.bins && h'.blocks.Keys == h.blocks.Keys
    ensures BinsLinked(h', links, heads)
  {
    hide Chained;
    forall t, c ensures h'.Bin(t, c) == h.Bin(t, c) {}
  }

  lemma {:induction false} IsAllocLocal(h: Heap, h1: Heap, h': Heap, t: nat, request: nat, c: int, p: nat, i: nat)
    requires t !in h.task && ClassFor(request, c) && c != LARGE_CLASS_SIZE_INDEX && h.Bin(t, c) != [] &&
      h.Bin(t, c)[0] in h.blocks
    requires var a := h.Bin(t, c)[0];
      h1 == (if |h.blocks[a].free| == 1 then h.WithBin(t, c, Without(h.Bin(t, c), a)) else h) &&
      Least(h.blocks[a].free, i) &&
      p == h.Address(a, i) && h' == Take(h1, t, a, i, request)
    ensures AllocLocal(h, h', t, request, c, p)
  {}

  lemma {:induction false} ClassChosen(table: seq<nat>, size: nat)
    requires TableFilled(table)
    ensures |table| == SIZE_CLASS_TABLE_LEN && ClassFor(size, ClassIndex(table, size))
  {
    ShippedTiered();
    LookupIsScan(SIZE_CLASSES, table, size);
  }

  lemma {:induction false} SlowIsNew(h: Heap, m: Heap, h': Heap, t: nat, request: nat, c: int, p: nat)
    requires h.Inv() && AllocLocked(h, m, t, request, c) && AllocFinish(m, h', t, p)
    ensures p in h'.live && h'.live[p].a !in h.blocks
  {
    hide Heap.Inv, AllocLocked, AllocFinish;
    FetchedIsNew(h, m, t, request, c);
    FinishedAt(m, h', t, p);
  }

  lemma {:induction false} SnugAt(h: Heap, h': Heap, t: nat, request: nat, p: nat)
    requires h'.Inv() && HandedOut(h, h', t, request, p)
    ensures var size := SizeAt(h', p);
      request <= size && (request > 32768 ==> size == request) && (request >= 9 ==> size <= 2 * (request - 1)) &&
      forall i {:trigger SIZE_CLASSES[i]} ::
        0 <= i < |SIZE_CLASSES| && request <= SIZE_CLASSES[i] ==> size <= SIZE_CLASSES[i]
  {
    hide Heap.Inv;
    LiveSnug(h', p);
  }

  lemma {:induction false} ClassForOk(request: nat, c: int)
    requires ClassFor(request, c)
    ensures IsClass(c) && (c == LARGE_CLASS_SIZE_INDEX ==> 0 < request)
  {
    ShippedSizes();
  }

  lemma {:induction false} EmptyBin(h: Heap, links: map<nat, Link>, heads: map<(nat, int), nat>, t: nat, c: int)
    requires BinsLinked(h, links, heads)
    ensures HeadOf(heads, t, c) == 0 <==> h.Bin(t, c) == []
  {
    hide NoDup;
    HeadIn(h.Bin(t, c));
    HeadNamed(h.Bin(t, c), links);
  }

  lemma {:induction false} NewSpan(h: Heap, pages: Pages, a: nat, n: nat)
    requires h.SpansInv() && Allocated(h.pages, pages, a, n)
    ensures a !in h.blocks
  {
    hide Pages.Ok;
  }

  lemma {:induction false} KeysAgree(h: Heap, links: map<nat, Link>, heads: map<(nat, int), nat>)
    requires BinsLinked(h, links, heads)
    ensures links.Keys == h.blocks.Keys
  {}

  lemma {:induction false} FetchFields(h: Heap, pages: Pages, t: nat, request: nat, c: int, a: nat, free: set<nat>)
    ensures var h' := FetchSpan(h, pages, t, request, c, a, free);
      h'.pages == pages && h'.bins == h.bins &&
      h'.blocks == h.blocks[a := Blocks(c, BlockBytes(c, request), BlocksIn(c), free)] &&
      h'.task == h.task[t := Fetched(a, request)]
  {}

  /** A span that is in no bin joins the books. */
  lemma {:induction false} BinsExtended(h: Heap, h': Heap, links: map<nat, Link>, links': map<nat, Link>,
          heads: map<(nat, int), nat>, a: nat)
    requires BinsLinked(h, links, heads) && h.BinsInv() && a !in h.blocks && a in links' &&
      links' == links[a := links'[a]]
    requires h'.bins == h.bins && h'.blocks.Keys == h.blocks.Keys + {a}
    ensures BinsLinked(h', links', heads)
  {
    hide NoDup;
    forall t, c ensures Chained(h'.Bin(t, c), links') && HeadOf(heads, t, c) == Nth(h'.Bin(t, c), 0) {
      assert h'.Bin(t, c) == h.Bin(t, c);
      assert a !in h.Bin(t, c);
      ChainedStays(h.Bin(t, c), links, links');
    }
  }

  lemma {:induction false} ChainedStays(l: seq<nat>, links: map<nat, Link>, links': map<nat, Link>)
    requires Chained(l, links) && forall x :: x in l ==> x in links' && (x in links ==> links'[x] == links[x])
    ensures Chained(l, links')
  {}

  lemma {:induction false} IsAllocLocked(h: Heap, h': Heap, t: nat, request: nat, c: int, a: nat, free: set<nat>)
    requires t !in h.task && ClassFor(request, c) && (c != LARGE_CLASS_SIZE_INDEX ==> h.Bin(t, c) == []) &&
      h.pages.pageSize > 0
    requires Allocated(h.pages, h'.pages, a, PageCount(SpanBytes(c, request), h.pages.pageSize)) &&
      IsUpto(free, BlocksIn(c))
    requires h' == FetchSpan(h, h'.pages, t, request, c, a, free)
    ensures AllocLocked(h, h', t, request, c)
  {
    hide Allocated, ClassFor, IsUpto, FetchSpan, PageCount;
  }

  lemma {:induction false} FetchedFacts(h: Heap, links: map<nat, Link>, heads: map<(nat, int), nat>, t: nat, a: nat)
    requires h.Inv() && BinsLinked(h, links, heads) && t in h.task && h.task[t].Fetched? && h.task[t].a == a &&
      a in h.blocks
    ensures a in links && a != 0 && a in h.pages.spans && h.blocks[a].free != {} && forall t', c :: a !in h.Bin(t', c)
  {
    hide Pages.TableOk, Pages.ChunksOk, Pages.PoolOk, NoDup, Chained;
    assert t in h.task;
    assert h.SpanInv(a);
    assert IsUpto(h.blocks[a].free, h.blocks[a].count);
    assert 0 in h.blocks[a].free;
    forall t', c ensures a !in h.Bin(t', c) {}
  }

  lemma {:induction false} IsAllocFinish(h: Heap, h1: Heap, h': Heap, t: nat, a: nat, i: nat, p: nat)
    requires t in h.task && h.task[t].Fetched? && h.task[t].a == a && a in h.blocks && Least(h.blocks[a].free, i) &&
      p == h.Address(a, i)
    requires var c := h.blocks[a].cls;
      h1 == if c == LARGE_CLASS_SIZE_INDEX then h else h.WithBin(t, c, [a] + h.Bin(t, c))
    requires h' == Take(h1, t, a, i, h.task[t].request).(task := h.task - {t}, busy := h.busy - {a})
    ensures AllocFinish(h, h', t, p)
  {
    assert h1 == Binned(h, t, a);
  }

  lemma {:induction false} FreeFacts(h: Heap, links: map<nat, Link>, heads: map<(nat, int), nat>, t: nat, p: nat,
          x: nat)
    requires h.Inv() && BinsLinked(h, links, heads) && h.Inside(p, x) && h.live[p].a in h.owner && h.live[p].thread == t
    ensures var a, i := h.live[p].a, h.live[p].i;
      h.owner[a] == t && a in h.blocks && a in links && a != 0 && a in h.pages.spans && i < h.blocks[a].count &&
      i !in h.blocks[a].free && a !in h.busy &&
      p == h.Address(a, i) && InBlock(h.pages.spans[a].base, i, h.blocks[a].size, x) &&
      (h.blocks[a].free == {} <==> a !in h.Bin(t, h.blocks[a].cls)) &&
      (h.blocks[a].free == {} ==> forall t', c :: a !in h.Bin(t', c))
  {
    hide Pages.TableOk, Pages.ChunksOk, Pages.PoolOk, NoDup, Chained;
    assert h.LiveAt(p);
    assert h.SpanInv(h.live[p].a);
  }

  /** Between the two visits of the bin. */
  lemma {:induction false} FreeMiddle(h: Heap, h1: Heap, t: nat, a: nat, i: nat)
    requires h.BinsInv() && a in h.blocks && a in h.owner && h.owner[a] == t &&
      (h.blocks[a].free == {} <==> a !in h.Bin(t, h.blocks[a].cls))
    requires var c := h.blocks[a].cls; h1 == if h.blocks[a].free == {} then h.WithBin(t, c, [a] + h.Bin(t, c)) else h
    ensures h1.blocks == h.blocks && h1.pages == h.pages && h1.live == h.live && h1.task == h.task && h1.busy == h.busy
    ensures PutBlock(h1, a, i).BinsInv() && a in PutBlock(h1, a, i).Bin(t, h.blocks[a].cls)
  {
    hide NoDup;
    var c := h.blocks[a].cls;
    var h2 := PutBlock(h1, a, i);
    if h.blocks[a].free == {} { NoDupPushed(h.Bin(t, c), a); }
    forall t', c'
      ensures h2.Bin(t', c') == (if h1 != h && t' == t && c' == c then [a] + h.Bin(t, c) else h.Bin(t', c')) {}
  }

  lemma {:induction false} PutKept(h: Heap, a: nat, i: nat, links: map<nat, Link>, heads: map<(nat, int), nat>)
    requires a in h.blocks && BinsLinked(h, links, heads)
    ensures BinsLinked(PutBlock(h, a, i), links, heads) && PutBlock(h, a, i).pages == h.pages &&
      PutBlock(h, a, i).task == h.task
    ensures PutBlock(h, a, i).blocks == h.blocks[a := h.blocks[a].(free := h.blocks[a].free + {i})]
    ensures i !in h.blocks[a].free ==> |h.blocks[a].free + {i}| == |h.blocks[a].free| + 1
  {
    BinsAlike(h, PutBlock(h, a, i), links, heads);
  }

  lemma {:induction false} FreeDone(h: Heap, h1: Heap, h': Heap, t: nat, a: nat, i: nat, p: nat, links: map<nat, Link>,
          heads: map<(nat, int), nat>, empty: bool)
    requires h.Inv() && t !in h.task && p in h.live && h.live[p] == LiveBlock(a, i, h.live[p].request, t) &&
      p == h.Address(a, i)
    requires a in h.blocks && a in h.owner && h.owner[a] == t && i !in h.blocks[a].free
    requires (h.blocks[a].free == {} <==> a !in h.Bin(t, h.blocks[a].cls)) &&
      empty == (|h.blocks[a].free| + 1 == h.blocks[a].count)
    requires var c := h.blocks[a].cls; h1 == if h.blocks[a].free == {} then h.WithBin(t, c, [a] + h.Bin(t, c)) else h
    requires var h2, c := PutBlock(h1, a, i), h.blocks[a].cls;
      h' == if !empty then h2 else
        h2.WithBin(t, c, Without(h2.Bin(t, c), a)).(task := h.task[t := Returning(a)], busy := h.busy[a := t])
    ensures FreeLocal(h, h', t, p) && h'.Inv() && h'.pages == h.pages && h'.blocks == PutBlock(h1, a, i).blocks
  {
    hide Heap.Inv, Without;
    var c := h.blocks[a].cls;
    var l := if h.blocks[a].free == {} then [a] + h.Bin(t, c) else h.Bin(t, c);
    assert h1.Bin(t, c) == l;
    assert PutBlock(h1, a, i).Bin(t, c) == l;
    FreedSame(h, h1, h', t, a, i, l);
    assert h' == FreedLocal(h, t, a, i);
    LocalFreed(h, h', t, p);
  }

  lemma {:induction false} FreedSame(h: Heap, h1: Heap, h': Heap, t: nat, a: nat, i: nat, l: seq<nat>)
    requires a in h.blocks && (h.blocks[a].free == {} <==> a !in h.Bin(t, h.blocks[a].cls)) &&
      l == (if h.blocks[a].free == {} then [a] + h.Bin(t, h.blocks[a].cls) else h.Bin(t, h.blocks[a].cls))
    requires var c := h.blocks[a].cls; h1 == if h.blocks[a].free == {} then h.WithBin(t, c, l) else h
    requires var h2, c := PutBlock(h1, a, i), h.blocks[a].cls;
      h' == if |h.blocks[a].free| + 1 != h.blocks[a].count then h2 else
        h2.WithBin(t, c, Without(l, a)).(task := h.task[t := Returning(a)], busy := h.busy[a := t])
    ensures h' == FreedLocal(h, t, a, i)
  {
    hide Without;
    var c := h.blocks[a].cls;
    if h.blocks[a].free != {} { assert h.bins[(t, c) := h.bins[(t, c)]] == h.bins; }
  }

  lemma {:induction false} ReturningFacts(h: Heap, links: map<nat, Link>, heads: map<(nat, int), nat>, t: nat, a: nat)
    requires h.Inv() && BinsLinked(h, links, heads) && t in h.task && h.task[t] == Returning(a)
    ensures a in h.blocks && a in h.pages.Used() && a in h.pages.spans && forall t', c :: a !in h.Bin(t', c)
    ensures links.Keys == h.blocks.Keys && h.blocks.Keys == h.pages.Used()
  {
    hide Pages.Ok, NoDup, Chained, Pages.Used;
    assert t in h.task;
    assert h.SpanInv(a);
    forall t', c ensures a !in h.Bin(t', c) {}
  }

  lemma {:induction false} ReleasedUsed(h: Heap, pages: Pages, a: nat)
    requires Released(h.pages, pages, a) && h.blocks.Keys == h.pages.Used()
    ensures forall b :: b in h.blocks && b != a ==> b in pages.Used()
  {
    hide Pages.Ok, Pages.Used;
  }

  lemma {:induction false} BackFields(h: Heap, pages: Pages, t: nat, a: nat)
    ensures var h' := GivenBack(h, pages, t, a);
      h'.pages == pages && h'.bins == h.bins && h'.blocks == h.blocks - {a}
  {}

  /** A span that is in no bin leaves the books. */
  lemma {:induction false} BinsShrunk(h: Heap, h': Heap, links: map<nat, Link>, links': map<nat, Link>,
          heads: map<(nat, int), nat>, a: nat)
    requires BinsLinked(h, links, heads) && links' == links - {a} && forall t, c :: a !in h.Bin(t, c)
    requires h'.bins == h.bins && h'.blocks.Keys == h.blocks.Keys - {a}
    ensures BinsLinked(h', links', heads)
  {
    hide NoDup;
    forall t, c ensures Chained(h'.Bin(t, c), links') && HeadOf(heads, t, c) == Nth(h'.Bin(t, c), 0) {
      assert h'.Bin(t, c) == h.Bin(t, c);
      ChainedKeys(h.Bin(t, c), links);
      ChainedStays(h.Bin(t, c), links, links');
    }
  }

  lemma {:induction false} ChainedKeys(l: seq<nat>, links: map<nat, Link>)
    requires Chained(l, links)
    ensures forall x :: x in l ==> x in links
  {}

  lemma {:induction false} SpanIsLarge(h: Heap, p: nat)
    requires h.Inv() && p in h.live && h.live[p].a in h.blocks
    ensures h.live[p].a in h.owner <==> h.blocks[h.live[p].a].cls != LARGE_CLASS_SIZE_INDEX
  {
    hide Pages.Ok;
    assert h.SpanInv(h.live[p].a);
  }

  /** A large block is the only one of its span. */
  lemma {:induction false} LargeEmpties(h: Heap, p: nat)
    requires h.Inv() && p in h.live && h.live[p].a !in h.owner
    ensures h.Empties(p)
  {
    hide Pages.Ok, Heap.BinsInv, Heap.TasksInv, BlockAddress;
    assert h.LiveAt(p) && h.SpanInv(h.live[p].a);
    FullSet(h.blocks[h.live[p].a].free, 1);
    assert h.blocks[h.live[p].a].free == {};
  }

  lemma {:induction false} LargeFields(h: Heap, t: nat, p: nat)
    requires p in h.live
    ensures var h' := FreedLarge(h, t, p);
      h'.pages == h.pages && h'.bins == h.bins && h'.blocks == h.blocks &&
      h'.task == h.task[t := Returning(h.live[p].a)]
  {}

  /** n bytes have been copied, and no other byte has changed. */
  ghost predicate Copied(bytes: map<nat, nat>, bytes': map<nat, nat>, to: nat, from: nat, n: nat) {
    bytes'.Keys == bytes.Keys &&
    forall x :: x in bytes ==> bytes'[x] == if to <= x < to + n then At(bytes, from + (x - to)) else bytes[x]
  }

  lemma {:induction false} CopiedNone(bytes: map<nat, nat>, to: nat, from: nat)
    ensures Copied(bytes, bytes, to, from, 0)
  {}

  lemma {:induction false} CopiedMore(bytes: map<nat, nat>, bytes': map<nat, nat>, to: nat, from: nat, i: nat, n: nat)
    requires Copied(bytes, bytes', to, from, i) && i < n && (to + n <= from || from + n <= to)
    requires to + i in bytes && from + i in bytes
    ensures to + i in bytes' && from + i in bytes' && Copied(bytes, bytes'[to + i := bytes'[from + i]], to, from, i + 1)
  {
    assert bytes'[from + i] == bytes[from + i];
  }

  lemma {:induction false} ZeroedOnly(size: nat, pages: set<nat>, b: map<nat, nat>, b1: map<nat, nat>,
          b2: map<nat, nat>, ptr: nat, n: nat)
    requires BytesSame(size, pages, b, b1) && b2.Keys == b1.Keys && (n == 0 ==> b2 == b1)
    requires n != 0 ==> forall x :: x in b2 ==> b2[x] == if ptr <= x < ptr + n then 0 else b1[x]
    ensures SameBut(size, pages, b, b2, ptr, n)
  {
    hide InPage;
  }

  /** An allocation, a copy and a deallocation change no byte of a page mapped throughout but the copy's. */
  lemma {:induction false} MovedOnly(size: nat, pages: set<nat>, pages': set<nat>, b: map<nat, nat>, b1: map<nat, nat>,
          b2: map<nat, nat>, b': map<nat, nat>, to: nat, from: nat, n: nat)
    requires BytesSame(size, pages, b, b1) && Copied(b1, b2, to, from, n) && BytesSame(size, pages', b2, b')
    ensures SameBut(size, pages * pages', b, b', to, n)
  {
    hide InPage;
  }

  lemma {:induction false} SizeHere(h: Heap, p: nat)
    requires p in h.live && h.live[p].a in h.blocks
    ensures SizeAt(h, p) == h.blocks[h.live[p].a].size
  {}

  lemma {:induction false} KeptByAlloc(h: Heap, h': Heap, t: nat, request: nat, r: nat, m: State, pageMap: nat,
          b: map<nat, nat>, b': map<nat, nat>, but: nat)
    requires h.Inv() && HandedOut(h, h', t, request, r) && Sound(h.pages, m, pageMap, b) &&
      BytesSame(h.pages.pageSize, h.pages.table.Keys, b, b')
    ensures KeptBut(h, b, b', but)
  {
    hide Heap.Inv, Sound, BytesSame, KeptBut;
    AllocBytes(h, h', m, pageMap, b, b');
    BlocksKept(h, h', b, b', but);
  }

  lemma {:induction false} KeptByFree(h: Heap, h': Heap, p: nat, m: State, pageMap: nat, b: map<nat, nat>,
          b': map<nat, nat>)
    requires h.Inv() && h'.Inv() && TakenBack(h, h', p) && Sound(h.pages, m, pageMap, b)
    requires h'.pages.pageSize == h.pages.pageSize && BytesSame(h.pages.pageSize, h'.pages.table.Keys, b, b')
    ensures KeptBut(h, b, b', p) && BytesKept(h, h', b, b')
  {
    hide Heap.Inv, Sound, BytesSame, KeptBut;
    FreeBytes(h, h', m, pageMap, b, b');
    BlocksKept(h, h', b, b', p);
  }

  /** What the copy and the release need once the new block is there. */
  lemma {:induction false} MoveReady(h: Heap, h1: Heap, t: nat, p: nat, r: nat, size: nat, m: State, m1: State,
          pageMap: nat, pageMap1: nat, b: map<nat, nat>, b1: map<nat, nat>)
    requires h.Inv() && h1.Inv() && HandedOut(h, h1, t, size, r) && exists c: int :: AllocRun(h, h1, t, size, c, r)
    requires Freeable(h, m.watched, t, p)
    requires SizeAt(h, p) < size && Sound(h.pages, m, pageMap, b) && WatchKept(m, m1) &&
      Sound(h1.pages, m1, pageMap1, b1)
    ensures SameBlock(h, h1, p) && p != r && SizeAt(h1, p) == SizeAt(h, p) && size <= SizeAt(h1, r) && p in h1.live &&
      h1.task == h.task
    ensures h1.blocks[h1.live[p].a].size == SizeAt(h, p) && 0 < SizeAt(h, p) && h1.Inside(p, p)
    ensures r + SizeAt(h, p) <= p || p + SizeAt(h, p) <= r
    ensures forall x :: r <= x < r + SizeAt(h, p) || p <= x < p + SizeAt(h, p) ==> x in b1
    ensures Freeable(h1, m1.watched, t, p)
  {
    hide Heap.Inv, Sound, AllocRun, WatchKept, SameUsed, Heap.Inside;
    var c: int :| AllocRun(h, h1, t, size, c, r);
    AllocRunPages(h, h1, t, size, c, r);
    if h1.Empties(p) {
      EmptiesBefore(h, h1, t, size, c, r, p);
      UnreadStays(h, h1, m, m1, pageMap, b, h.live[p].a);
    }
    LiveThere(h1, p, m1, pageMap1, b1);
    LiveThere(h1, r, m1, pageMap1, b1);
    BlocksSeparate(h1, p, r);
  }

  lemma {:induction false} MoveDone(h: Heap, h1: Heap, h': Heap, t: nat, p: nat, r: nat, size: nat, m1: State,
          m': State, pageMap: nat, b: map<nat, nat>, b1: map<nat, nat>, b2: map<nat, nat>, b': map<nat, nat>)
    requires h.Inv() && h1.Inv() && h'.Inv() && HandedOut(h, h1, t, size, r) && TakenBack(h1, h', p) && p in h.live &&
      SizeAt(h, p) < size <= SizeAt(h1, r)
    requires BytesKept(h, h1, b, b1) && Copied(b1, b2, r, p, SizeAt(h, p)) && Sound(h1.pages, m1, pageMap, b2)
    requires h'.pages.pageSize == h1.pages.pageSize && BytesSame(h1.pages.pageSize, h'.pages.table.Keys, b2, b')
    requires forall x :: r <= x < r + SizeAt(h, p) ==> x in b1
    requires FreeRun(h1, h', t, p) && Freeable(h1, m1.watched, t, r) && WatchKept(m1, m')
    ensures Freeable(h', m'.watched, t, r)
    ensures Moved(h, h', t, p, r, size) && size <= SizeAt(h', r) && KeptBut(h, b, b', p) &&
      Prefix(b, p, b', r, SizeAt(h, p))
  {
    hide Heap.Inv, Sound, BytesSame, KeptBut, Heap.Inside, BytesKept, FreeRun, Freeable;
    MovedTo(h, h1, h', t, p, r, size);
    assert SameBlock(h, h1, p);
    StillFreeable(h1, h', t, p, r, m1.watched);
    KeptByFree(h1, h', p, m1, pageMap, b2, b');
    MovedBytes(h, h1, h', t, p, r, SizeAt(h, p), b, b1, b2, b', size);
  }
}
