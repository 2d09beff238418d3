/** The allocator as a state machine over the steps of any number of threads. A step is what one
    thread does between two points where another thread can get in its way: the part of an
    operation it does on its own spans without the lock, or a whole critical section. */
module HeapState {
  import opened Linear
  import opened RangeMapSpec
  import opened Spans
  import opened PageState
  import opened PageSteps
  import opened SizeClasses

  /** What a thread is in the middle of. */
  datatype Task =
    | Fetched(a: nat, request: nat)  // it has left the lock with a new span and is yet to take a block of it
    | Returning(a: nat)              // it has emptied the span and is yet to cache it under the lock

  /** A block handed out: block i of span a, for a request of so many bytes by `thread`. */
  datatype LiveBlock = LiveBlock(a: nat, i: nat, request: nat, thread: nat)

  datatype Heap = Heap(
    pages: Pages,
    blocks: map<nat, Blocks>,           // the block part of every span in use
    owner: map<nat, nat>,               // the thread of each small span in use
    bins: map<(nat, int), seq<nat>>,    // thread_local_bin of each thread, from the head
    task: map<nat, Task>,               // the threads that are in the middle of something
    busy: map<nat, nat>,                // and the spans they are at
    live: map<nat, LiveBlock>)          // blocks handed out and not freed, by address
  {
    ghost function Bin(t: nat, c: int): seq<nat> {
      if (t, c) in bins then bins[(t, c)] else []
    }

    ghost function WithBin(t: nat, c: int, l: seq<nat>): Heap {
      this.(bins := bins[(t, c) := l])
    }

    ghost function Base(a: nat): nat {
      if a in pages.spans then pages.spans[a].base else 0
    }

    /** The address of block i of span a. */
    ghost function Address(a: nat, i: nat): nat {
      if a in blocks then BlockAddress(Base(a), i, blocks[a].size) else 0
    }

    /** x is an address inside a live block that starts at p. */
    ghost predicate Inside(p: nat, x: nat) {
      p in live && live[p].a in blocks && p <= x < p + blocks[live[p].a].size
    }

    /** Block p is the last one of its span that is handed out: freeing it empties the span. */
    ghost predicate Empties(p: nat) {
      p in live && live[p].a in blocks && |blocks[live[p].a].free| + 1 == blocks[live[p].a].count
    }

    // ---- the invariant ----

    ghost predicate Inv() {
      SpansInv() && BinsInv() && TasksInv() && LiveInv()
    }

    ghost predicate SpansInv() {
      pages.Ok() && pages.pageSize % 16 == 0 && blocks.Keys == pages.Used() &&
      (forall a :: a in owner ==> a in blocks) &&
      (forall a {:trigger SpanInv(a)} :: a in blocks ==> SpanInv(a))
    }

    /** A span in use: its blocks fit its pages; it belongs to one thread if it is small; outside any
        task some block of it is handed out, and it is in its owner's bin exactly while one is free. */
    ghost predicate SpanInv(a: nat)
      requires a in blocks
    {
      var b := blocks[a];
      a in pages.spans && Fits(b, pages.spans[a].pages, pages.pageSize) &&
      (a in owner <==> b.cls != LARGE_CLASS_SIZE_INDEX) &&
      (if a in busy then AtTask(a) else !IsUpto(b.free, b.count)) &&
      (a in owner ==> (a in Bin(owner[a], b.cls) <==> a !in busy && b.free != {}))
    }

    /** A small span in a task is its own thread's. All blocks of a span in a task are free, unless it
        is a large one on its way back. */
    ghost predicate AtTask(a: nat)
      requires a in busy && a in blocks
    {
      busy[a] in task && (a in owner ==> owner[a] == busy[a]) &&
      (IsUpto(blocks[a].free, blocks[a].count) <==> a in owner || task[busy[a]].Fetched?)
    }

    /** A bin holds spans of its thread and class, each once. */
    ghost predicate BinsInv() {
      (forall t, c, a {:trigger a in Bin(t, c)} ::
        a in Bin(t, c) ==> a in blocks && a in owner && owner[a] == t && blocks[a].cls == c) &&
      (forall t, c {:trigger Bin(t, c)} :: NoDup(Bin(t, c)))
    }

    /** Threads in the middle of something are at different spans in use. */
    ghost predicate TasksInv() {
      (forall t {:trigger t in task} :: t in task ==> task[t].a in busy && busy[task[t].a] == t && FetchedOk(t)) &&
      (forall a {:trigger a in busy} :: a in busy ==> a in blocks && busy[a] in task && task[busy[a]].a == a)
    }

    ghost predicate FetchedOk(t: nat)
      requires t in task
    {
      task[t].Fetched? && task[t].a in blocks ==> Serves(blocks[task[t].a].size, task[t].request)
    }

    /** The live blocks are exactly the blocks that are not free, except in a large span that is on its
        way back. A small block's span belongs to the thread that allocated the block. */
    ghost predicate LiveInv() {
      (forall p {:trigger LiveAt(p)} :: p in live ==> LiveAt(p)) &&
      (forall a, i: nat {:trigger Address(a, i)} ::
        a in blocks && a !in busy && i < blocks[a].count && i !in blocks[a].free ==>
        Address(a, i) in live && live[Address(a, i)].a == a && live[Address(a, i)].i == i)
    }

    ghost predicate LiveAt(p: nat)
      requires p in live
    {
      var l := live[p];
      l.a in blocks && l.a !in busy && l.i < blocks[l.a].count && l.i !in blocks[l.a].free && p == Address(l.a, l.i) &&
      Serves(blocks[l.a].size, l.request) && (l.a in owner ==> owner[l.a] == l.thread)
    }
  }

  /** The blocks fit n pages, and no other index is free. A large span has one block in the least number of
      pages; any other has what the tables say of its class. */
  ghost predicate Fits(b: Blocks, n: nat, pageSize: nat) {
    IsClass(b.cls) && 0 < b.size && 0 < b.count && Times(b.count, b.size) <= Times(n, pageSize) &&
    (forall i :: i in b.free ==> i < b.count) &&
    if b.cls == LARGE_CLASS_SIZE_INDEX then b.count == 1 && n > 0 && Times(n - 1, pageSize) < b.size
    else 2 <= b.count && b.size % 16 == 0 && ClassSpan(b.cls, b.size, b.count, n, pageSize)
  }

  ghost predicate NoDup(l: seq<nat>) {
    forall i, j :: 0 <= i < j < |l| ==> l[i] != l[j]
  }

  /** The class that serves a request. */
  ghost predicate ClassFor(request: nat, c: int) {
    if request > MAX_SIZE_CLASS then c == LARGE_CLASS_SIZE_INDEX else LeastFit(SIZE_CLASSES, request, c)
  }

  ghost predicate Least(s: set<nat>, i: nat) {
    i in s && forall j :: j in s ==> i <= j
  }

  // ---- the steps ----

  /** The state with block i of span a handed out to thread t. */
  ghost function Take(h: Heap, t: nat, a: nat, i: nat, request: nat): Heap
    requires a in h.blocks
  {
    h.(blocks := h.blocks[a := h.blocks[a].(free := h.blocks[a].free - {i})],
       live := h.live[h.Address(a, i) := LiveBlock(a, i, request, t)])
  }

  /** The state with block i of span a back. */
  ghost function PutBlock(h: Heap, a: nat, i: nat): Heap
    requires a in h.blocks
  {
    h.(blocks := h.blocks[a := h.blocks[a].(free := h.blocks[a].free + {i})], live := h.live - {h.Address(a, i)})
  }

  ghost function Without(l: seq<nat>, a: nat): seq<nat> {
    if l == [] then [] else if l[0] == a then l[1..] else [l[0]] + Without(l[1..], a)
  }

  /** src/cmalloc.c:82-87: the thread takes the least free block of the first span in its bin, which
      leaves the bin with its last free block. */
  ghost predicate AllocLocal(h: Heap, h': Heap, t: nat, request: nat, c: int, p: nat) {
    t !in h.task && ClassFor(request, c) && c != LARGE_CLASS_SIZE_INDEX && h.Bin(t, c) != [] &&
    h.Bin(t, c)[0] in h.blocks &&
    var a := h.Bin(t, c)[0];
    var free := h.blocks[a].free;
    exists i :: Least(free, i) && p == h.Address(a, i) &&
      h' == Take(if |free| == 1 then h.WithBin(t, c, Without(h.Bin(t, c), a)) else h, t, a, i, request)
  }

  /** src/cmalloc.c:90-92 and 98-100: with its bin empty, or for a large request, the thread fetches a
      new span under the lock. */
  ghost predicate AllocLocked(h: Heap, h': Heap, t: nat, request: nat, c: int) {
    t !in h.task && ClassFor(request, c) && (c != LARGE_CLASS_SIZE_INDEX ==> h.Bin(t, c) == []) &&
    h.pages.pageSize > 0 &&
    exists a, free ::
      Allocated(h.pages, h'.pages, a, PageCount(SpanBytes(c, request), h.pages.pageSize)) &&
      IsUpto(free, BlocksIn(c)) &&
      h' == FetchSpan(h, h'.pages, t, request, c, a, free)
  }

  ghost function FetchSpan(h: Heap, pages: Pages, t: nat, request: nat, c: int, a: nat, free: set<nat>): Heap {
    h.(pages := pages, blocks := h.blocks[a := Blocks(c, BlockBytes(c, request), BlocksIn(c), free)],
       owner := if c == LARGE_CLASS_SIZE_INDEX then h.owner else h.owner[a := t],
       task := h.task[t := Fetched(a, request)], busy := h.busy[a := t])
  }

  /** src/cmalloc.c:94-95 and 102: it puts a small span in its bin and takes the first block. */
  ghost predicate AllocFinish(h: Heap, h': Heap, t: nat, p: nat) {
    t in h.task && h.task[t].Fetched? && h.task[t].a in h.blocks &&
    var a := h.task[t].a;
    exists i :: Least(h.blocks[a].free, i) && p == h.Address(a, i) &&
      h' == Take(Binned(h, t, a), t, a, i, h.task[t].request).(task := h.task - {t}, busy := h.busy - {a})
  }

  /** src/cmalloc.c:118-123: a small block comes back to the thread that allocated it. A span that was
      full goes back in the bin; one with no block left out leaves it, to be cached. */
  ghost predicate FreeLocal(h: Heap, h': Heap, t: nat, p: nat) {
    t !in h.task && p in h.live && h.live[p].a in h.blocks && h.live[p].a in h.owner && h.live[p].thread == t &&
    h' == FreedLocal(h, t, h.live[p].a, h.live[p].i)
  }

  /** src/cmalloc.c:109: any thread may free a large block. */
  ghost predicate FreeLarge(h: Heap, h': Heap, t: nat, p: nat) {
    t !in h.task && p in h.live && h.live[p].a !in h.owner && h' == FreedLarge(h, t, p)
  }

  /** src/cmalloc.c:111-113 and 125-127: the thread gives a span back under the lock. */
  ghost predicate FreeLocked(h: Heap, h': Heap, t: nat) {
    t in h.task && h.task[t].Returning? && Released(h.pages, h'.pages, h.task[t].a) &&
    h' == GivenBack(h, h'.pages, t, h.task[t].a)
  }

  /** Any step of any thread. */
  ghost predicate Step(h: Heap, h': Heap) {
    exists t: nat :: StepOf(h, h', t)
  }

  ghost predicate StepOf(h: Heap, h': Heap, t: nat) {
    LocalStep(h, h', t) || LockedStep(h, h', t)
  }

  ghost predicate LocalStep(h: Heap, h': Heap, t: nat) {
    (exists request: nat, c: int, p: nat :: AllocLocal(h, h', t, request, c, p)) ||
    (exists p: nat :: AllocFinish(h, h', t, p)) ||
    (exists p: nat :: FreeLocal(h, h', t, p)) || (exists p: nat :: FreeLarge(h, h', t, p))
  }

  ghost predicate LockedStep(h: Heap, h': Heap, t: nat) {
    (exists request: nat, c: int :: AllocLocked(h, h', t, request, c)) || FreeLocked(h, h', t)
  }

  // ---- addresses ----

  /** A block of a span of n pages from page c on lies on these pages. */
  lemma {:induction false} PagesOfBlock(c: nat, n: nat, d: nat, i: nat, size: nat, count: nat, x: nat)
    requires d > 0 && i < count && Times(count, size) <= Times(n, d)
    requires Times(c, d) + Times(i, size) <= x < Times(c, d) + Times(i, size) + size
    ensures c <= Quotient(x, d) < c + n
  {
    hide Times, Quotient;
    var k := Quotient(x, d);
    QuotientBounds(x, d);
    TimesGap(i, count, size);
    TimesAdd(c, n, d);
    if k < c { TimesGap(k, c, d); }
    if c + n <= k { TimesMono(c + n, k, d); }
  }

  /** Every address inside a block of a span in use lies on a page that the page map gives to it. */
  lemma {:induction false} BlockPage(h: Heap, a: nat, i: nat, x: nat)
    requires h.SpansInv() && a in h.blocks && i < h.blocks[a].count
    requires h.Address(a, i) <= x < h.Address(a, i) + h.blocks[a].size
    ensures h.pages.pageSize > 0 && h.pages.Covers(a, Quotient(x, h.pages.pageSize))
    ensures At(h.pages.table, Quotient(x, h.pages.pageSize)) == a
  {
    hide Pages.ChunksOk, Pages.PoolOk, Times, Quotient, IsUpto;
    assert h.SpanInv(a) && h.pages.SpanOk(a);
    PagesOfBlock(h.pages.page[a], h.pages.spans[a].pages, h.pages.pageSize, i, h.blocks[a].size, h.blocks[a].count, x);
    assert h.pages.Covers(a, Quotient(x, h.pages.pageSize));
  }

  /** Blocks never overlap, be they of one span or of two. */
  lemma {:induction false} BlocksApart(h: Heap, a: nat, i: nat, a': nat, i': nat, x: nat)
    requires h.SpansInv() && a in h.blocks && a' in h.blocks && i < h.blocks[a].count && i' < h.blocks[a'].count
    requires h.Address(a, i) <= x < h.Address(a, i) + h.blocks[a].size
    requires h.Address(a', i') <= x < h.Address(a', i') + h.blocks[a'].size
    ensures a == a' && i == i'
  {
    hide Pages.SpansOk, Pages.ChunksOk, Pages.PoolOk, Pages.TableOk;
    BlockPage(h, a, i, x);
    BlockPage(h, a', i', x);
    assert a == a';
    if i < i' { TimesGap(i, i', h.blocks[a].size); }
    if i' < i { TimesGap(i', i, h.blocks[a].size); }
  }

  lemma {:induction false} AddressesDiffer(h: Heap, a: nat, i: nat, a': nat, i': nat)
    requires h.SpansInv() && a in h.blocks && a' in h.blocks && i < h.blocks[a].count && i' < h.blocks[a'].count
    requires h.Address(a, i) == h.Address(a', i')
    ensures a == a' && i == i'
  {
    hide Pages.Ok;
    assert h.SpanInv(a) && h.SpanInv(a');
    BlocksApart(h, a, i, a', i', h.Address(a, i));
  }

  // ---- lists ----

  lemma {:induction false} WithoutFacts(l: seq<nat>, a: nat)
    requires NoDup(l)
    ensures NoDup(Without(l, a)) && forall x :: x in Without(l, a) <==> x in l && x != a
  {
    if l != [] {
      var tail := l[1..];
      assert forall i, j :: 0 <= i < j < |tail| ==> tail[i] == l[i + 1] && tail[j] == l[j + 1];
      WithoutFacts(tail, a);
      assert forall x :: x in l <==> x == l[0] || x in tail;
      if l[0] != a { NoDupPushed(Without(tail, a), l[0]); }
    }
  }

  lemma {:induction false} HeadIn(l: seq<nat>)
    ensures l != [] ==> l[0] in l
  {}

  lemma {:induction false} NoDupPushed(l: seq<nat>, a: nat)
    requires NoDup(l) && a !in l
    ensures NoDup([a] + l) && forall x :: x in [a] + l <==> x == a || x in l
  {}

  // ---- changes of one bin ----

  /** The span keeps its block part; its bin may have lost or gained other spans. */
  lemma {:induction false} SpanStays(h: Heap, h': Heap, a: nat)
    requires a in h.blocks && h.SpanInv(a) && a in h'.blocks && h'.blocks[a] == h.blocks[a]
    requires a in h'.pages.spans && h'.pages.pageSize == h.pages.pageSize && a in h.pages.spans &&
      h'.pages.spans[a].pages == h.pages.spans[a].pages
    requires (a in h'.owner <==> a in h.owner) && (a in h.owner ==> h'.owner[a] == h.owner[a])
    requires (a in h'.busy <==> a in h.busy) && (a in h.busy ==> h'.busy[a] == h.busy[a])
    requires a in h.busy ==> h.busy[a] in h.task && h.busy[a] in h'.task && h'.task[h.busy[a]] == h.task[h.busy[a]]
    requires a in h.owner ==> (a in h'.Bin(h.owner[a], h.blocks[a].cls) <==> a in h.Bin(h.owner[a], h.blocks[a].cls))
    ensures h'.SpanInv(a)
  {
    hide Fits;
  }

  /** Handing out block i of a span that is in its bin. */
  lemma {:induction false} TakeLocal(h: Heap, h1: Heap, t: nat, c: int, a: nat, i: nat, request: nat)
    requires h.Inv() && a in h.blocks && a in h.Bin(t, c) && Least(h.blocks[a].free, i) &&
      Serves(h.blocks[a].size, request)
    requires h1 == if |h.blocks[a].free| == 1 then h.WithBin(t, c, Without(h.Bin(t, c), a)) else h
    ensures Take(h1, t, a, i, request).Inv()
  {
    hide Pages.Ok, IsUpto, NoDup, Without, BlockAddress;
    var h' := Take(h1, t, a, i, request);
    assert h.SpanInv(a);
    TakeSpans(h, h1, t, c, a, i, request);
    TakeBins(h, h1, t, c, a, i, request);
    TakeLive(h, h1, h', t, a, i, request);
    assert h'.TasksInv();
  }

  lemma {:induction false} OneElement(s: set<nat>, i: nat)
    requires i in s
    ensures |s| == 1 <==> s - {i} == {}
  {
    assert s == (s - {i}) + {i};
  }

  lemma {:induction false} TakeSpans(h: Heap, h1: Heap, t: nat, c: int, a: nat, i: nat, request: nat)
    requires h.Inv() && a in h.blocks && a in h.Bin(t, c) && Least(h.blocks[a].free, i)
    requires h1 == if |h.blocks[a].free| == 1 then h.WithBin(t, c, Without(h.Bin(t, c), a)) else h
    ensures Take(h1, t, a, i, request).SpansInv()
  {
    hide Pages.Ok, NoDup, Without, BlockAddress, Heap.LiveInv, Heap.TasksInv, Serves, ClassSpan, Times;
    var h' := Take(h1, t, a, i, request);
    assert h.SpanInv(a);
    OneElement(h.blocks[a].free, i);
    WithoutFacts(h.Bin(t, c), a);
    assert i < h.blocks[a].count && i !in h'.blocks[a].free;
    forall b | b in h'.blocks ensures h'.SpanInv(b) {
      assert h.SpanInv(b);
      if b != a { SpanStays(h, h', b); }
    }
  }

  lemma {:induction false} TakeBins(h: Heap, h1: Heap, t: nat, c: int, a: nat, i: nat, request: nat)
    requires h.Inv() && a in h.blocks
    requires h1 == if |h.blocks[a].free| == 1 then h.WithBin(t, c, Without(h.Bin(t, c), a)) else h
    ensures Take(h1, t, a, i, request).BinsInv()
  {
    hide Pages.Ok, NoDup, Without, BlockAddress, Heap.LiveInv, Heap.TasksInv, Heap.SpansInv;
    WithoutFacts(h.Bin(t, c), a);
    var h' := Take(h1, t, a, i, request);
    forall t', c'
      ensures h'.Bin(t', c') == (if h1 != h && t' == t && c' == c then Without(h.Bin(t, c), a) else h.Bin(t', c')) {}
  }

  /** The new live block, whatever else the step does to bins and tasks. */
  lemma {:induction false} TakeLive(h: Heap, h1: Heap, h': Heap, t: nat, a: nat, i: nat, request: nat)
    requires h'.owner == h.owner && (a in h.owner ==> h.owner[a] == t)
    requires h.SpansInv() && h.LiveInv() && a in h.blocks && i in h.blocks[a].free && i < h.blocks[a].count &&
      Serves(h.blocks[a].size, request)
    requires h1.pages == h.pages && h1.blocks == h.blocks && h1.live == h.live
    requires h'.pages == h.pages && h'.blocks == Take(h1, t, a, i, request).blocks &&
      h'.live == Take(h1, t, a, i, request).live
    requires a !in h'.busy && forall b :: b in h.blocks && b != a ==> (b in h'.busy <==> b in h.busy)
    requires a in h.busy ==> IsUpto(h.blocks[a].free, h.blocks[a].count)
    ensures h'.LiveInv()
  {
    hide Pages.Ok, NoDup, BlockAddress, Heap.SpansInv, Fits;
    var p := h.Address(a, i);
    forall b, j: nat ensures h'.Address(b, j) == h.Address(b, j) {}
    forall q | q in h'.live ensures h'.LiveAt(q) {
      if q != p { assert h.LiveAt(q); }
    }
    forall b, j: nat | b in h'.blocks && b !in h'.busy && j < h'.blocks[b].count && j !in h'.blocks[b].free
      ensures h'.Address(b, j) in h'.live && h'.live[h'.Address(b, j)].a == b && h'.live[h'.Address(b, j)].i == j
    {
      if h.Address(b, j) == p { AddressesDiffer(h, b, j, a, i); }
      assert b != a || j != i ==> b !in h.busy;
    }
  }

  /** A small span just fetched joins its owner's bin; a large one belongs to no bin. */
  ghost function Binned(h: Heap, t: nat, a: nat): Heap
    requires a in h.blocks
  {
    var c := h.blocks[a].cls;
    if c == LARGE_CLASS_SIZE_INDEX then h else h.WithBin(t, c, [a] + h.Bin(t, c))
  }

  /** Handing out the first block of a span just fetched. */
  lemma {:induction false} FinishInv(h: Heap, t: nat, i: nat)
    requires h.Inv() && t in h.task && h.task[t].Fetched? && h.task[t].a in h.blocks &&
      Least(h.blocks[h.task[t].a].free, i)
    ensures var a := h.task[t].a;
      Take(Binned(h, t, a), t, a, i, h.task[t].request).(task := h.task - {t}, busy := h.busy - {a}).Inv()
  {
    hide Pages.Ok, IsUpto, NoDup, BlockAddress, Fits;
    var a := h.task[t].a;
    var h1 := Binned(h, t, a);
    var h' := Take(h1, t, a, i, h.task[t].request).(task := h.task - {t}, busy := h.busy - {a});
    assert h.SpanInv(a) && t in h.task && a in h.busy && h.FetchedOk(t);
    FinishFree(h, a, i);
    FinishSpans(h, t, a, i, h');
    FinishBins(h, t, a, h');
    TakeLive(h, h1, h', t, a, i, h.task[t].request);
    FinishTasks(h, h', t, a);
  }

  lemma {:induction false} FinishTasks(h: Heap, h': Heap, t: nat, a: nat)
    requires h.TasksInv() && t in h.task && h.task[t].a == a && a in h.blocks && h'.task == h.task - {t} &&
      h'.busy == h.busy - {a} && a in h'.blocks && h'.blocks == h.blocks[a := h'.blocks[a]]
    ensures h'.TasksInv()
  {
    hide Serves;
    forall t' | t' in h'.task ensures h'.task[t'].a in h'.busy && h'.busy[h'.task[t'].a] == t' && h'.FetchedOk(t') {
      assert t' in h.task && h.FetchedOk(t') && h.task[t'].a in h.busy && h.task[t].a in h.busy;
    }
  }

  lemma {:induction false} FinishFree(h: Heap, a: nat, i: nat)
    requires h.SpansInv() && a in h.blocks && Least(h.blocks[a].free, i)
    ensures i < h.blocks[a].count && !IsUpto(h.blocks[a].free - {i}, h.blocks[a].count)
    ensures IsUpto(h.blocks[a].free, h.blocks[a].count) && a in h.owner ==> h.blocks[a].free - {i} != {}
  {
    hide Pages.Ok;
    assert h.SpanInv(a);
    var j := if i == 0 then 1 else 0;
    assert IsUpto(h.blocks[a].free, h.blocks[a].count) && a in h.owner ==> j in h.blocks[a].free - {i};
  }

  lemma {:induction false} BinnedFacts(h: Heap, t: nat, a: nat)
    requires h.BinsInv() && a in h.blocks
    ensures var h1 := Binned(h, t, a); h1 == h.(bins := h1.bins)
    ensures forall t', c', x {:trigger x in Binned(h, t, a).Bin(t', c')} :: x in Binned(h, t, a).Bin(t', c') <==>
      x in h.Bin(t', c') || (x == a && t' == t && c' == h.blocks[a].cls && c' != LARGE_CLASS_SIZE_INDEX)
  {
    var h1, c := Binned(h, t, a), h.blocks[a].cls;
    forall t', c'
      ensures h1.Bin(t', c') ==
        (if c != LARGE_CLASS_SIZE_INDEX && t' == t && c' == c then [a] + h.Bin(t, c) else h.Bin(t', c'))
    {}
  }

  lemma {:induction false} FinishSpan(h: Heap, t: nat, a: nat, i: nat, h': Heap)
    requires h.SpansInv() && h.BinsInv() && h.TasksInv() && t in h.task && h.task[t].Fetched? && h.task[t].a == a &&
      a in h.blocks
    requires i < h.blocks[a].count && !IsUpto(h.blocks[a].free - {i}, h.blocks[a].count)
    requires IsUpto(h.blocks[a].free, h.blocks[a].count) && a in h.owner ==> h.blocks[a].free - {i} != {}
    requires h' == Take(Binned(h, t, a), t, a, i, h.task[t].request).(task := h.task - {t}, busy := h.busy - {a})
    ensures a in h'.blocks && h'.SpanInv(a)
  {
    hide Pages.Ok, NoDup, BlockAddress, IsUpto, Binned;
    assert h.SpanInv(a) && a in h.busy && h.busy[a] == t;
    BinnedFacts(h, t, a);
    assert forall t', c' :: h'.Bin(t', c') == Binned(h, t, a).Bin(t', c');
  }

  lemma {:induction false} FinishSpans(h: Heap, t: nat, a: nat, i: nat, h': Heap)
    requires h.SpansInv() && h.BinsInv() && h.TasksInv() && t in h.task && h.task[t].Fetched? && h.task[t].a == a &&
      a in h.blocks
    requires i < h.blocks[a].count && !IsUpto(h.blocks[a].free - {i}, h.blocks[a].count)
    requires IsUpto(h.blocks[a].free, h.blocks[a].count) && a in h.owner ==> h.blocks[a].free - {i} != {}
    requires h' == Take(Binned(h, t, a), t, a, i, h.task[t].request).(task := h.task - {t}, busy := h.busy - {a})
    ensures h'.SpansInv()
  {
    hide Pages.Ok, NoDup, BlockAddress, IsUpto, Binned;
    assert h.SpanInv(a) && a in h.busy && h.busy[a] == t;
    BinnedFacts(h, t, a);
    FinishSpan(h, t, a, i, h');
    assert forall t', c' :: h'.Bin(t', c') == Binned(h, t, a).Bin(t', c');
    forall b | b in h'.blocks ensures h'.SpanInv(b) {
      assert h.SpanInv(b);
      if b != a {
        assert b in h.busy ==> h.busy[b] in h.task && h.task[h.busy[b]].a == b;
        SpanStays(h, h', b);
      }
    }
  }

  lemma {:induction false} FinishBins(h: Heap, t: nat, a: nat, h': Heap)
    requires h.SpansInv() && h.BinsInv() && a in h.blocks && a in h.busy && (a in h.owner ==> h.owner[a] == t)
    requires h'.bins == Binned(h, t, a).bins && h'.owner == h.owner && h'.blocks.Keys == h.blocks.Keys
    requires forall b :: b in h.blocks ==> h'.blocks[b].cls == h.blocks[b].cls
    ensures h'.BinsInv()
  {
    hide Pages.Ok, NoDup, BlockAddress, IsUpto, Fits;
    assert h.SpanInv(a);
    var c := h.blocks[a].cls;
    assert a !in h.Bin(t, c);
    NoDupPushed(h.Bin(t, c), a);
    forall t', c'
      ensures h'.Bin(t', c') == (if a in h.owner && t' == t && c' == c then [a] + h.Bin(t, c) else h.Bin(t', c')) {}
  }

  /** A new span, on its way from the lock to the thread. */
  lemma {:induction false} FetchInv(h: Heap, pages: Pages, t: nat, request: nat, c: int, a: nat, free: set<nat>)
    requires h.Inv() && t !in h.task && ClassFor(request, c) && h.pages.pageSize > 0
    requires Allocated(h.pages, pages, a, PageCount(SpanBytes(c, request), h.pages.pageSize)) &&
      IsUpto(free, BlocksIn(c))
    ensures FetchSpan(h, pages, t, request, c, a, free).Inv()
  {
    hide Pages.Ok, Pages.Used, NoDup, BlockAddress, PageCount, ClassFor, Fits, Allocated, SameUsed, Serves;
    var h' := FetchSpan(h, pages, t, request, c, a, free);
    AllocatedFacts(h.pages, pages, a, PageCount(SpanBytes(c, request), h.pages.pageSize));
    FetchFits(h.pages.pageSize, request, c, free);
    assert a !in h.blocks && a !in h.owner && a !in h.busy;
    FetchSpans(h, pages, t, request, c, a, free);
    FetchTasks(h, h', t, a);
    KeptLive(h, h', {}, a);
    forall t', c' ensures h'.Bin(t', c') == h.Bin(t', c') {}
    assert h'.BinsInv();
  }

  lemma {:induction false} FetchFits(pageSize: nat, request: nat, c: int, free: set<nat>)
    requires pageSize > 0 && ClassFor(request, c) && IsUpto(free, BlocksIn(c))
    ensures Fits(Blocks(c, BlockBytes(c, request), BlocksIn(c), free), PageCount(SpanBytes(c, request), pageSize),
        pageSize)
    ensures Serves(BlockBytes(c, request), request)
  {
    hide Times, Quotient, PageCount, Serves, ClassSpan;
    ShippedSizes();
    ClassSizes(c);
    LeastServes(request, c);
    PageCountMeans(SpanBytes(c, request), pageSize);
    if c != LARGE_CLASS_SIZE_INDEX { IsClassSpan(c, request, PageCount(SpanBytes(c, request), pageSize), pageSize); }
  }

  lemma {:induction false} FetchSpans(h: Heap, pages: Pages, t: nat, request: nat, c: int, a: nat, free: set<nat>)
    requires h.Inv() && t !in h.task && h.pages.pageSize > 0 && a !in h.busy && a !in h.blocks && a !in h.owner
    requires Allocated(h.pages, pages, a, PageCount(SpanBytes(c, request), h.pages.pageSize)) &&
      IsUpto(free, BlocksIn(c))
    requires Fits(Blocks(c, BlockBytes(c, request), BlocksIn(c), free),
        PageCount(SpanBytes(c, request), h.pages.pageSize), h.pages.pageSize)
    ensures FetchSpan(h, pages, t, request, c, a, free).SpansInv()
  {
    hide Pages.Ok, Pages.Used, NoDup, BlockAddress, PageCount, IsUpto, Fits, Allocated, SameUsed;
    var h' := FetchSpan(h, pages, t, request, c, a, free);
    AllocatedFacts(h.pages, pages, a, PageCount(SpanBytes(c, request), h.pages.pageSize));
    forall t', c' ensures h'.Bin(t', c') == h.Bin(t', c') {}
    assert a !in h.Bin(t, c);
    ClassIsLarge(Blocks(c, BlockBytes(c, request), BlocksIn(c), free),
        PageCount(SpanBytes(c, request), h.pages.pageSize), h.pages.pageSize);
    forall b | b in h'.blocks ensures h'.SpanInv(b) {
      if b != a {
        assert h.SpanInv(b);
        assert b in h.busy ==> h.busy[b] in h.task && h.busy[b] != t;
        SameSpan(h.pages, pages, {}, b);
        SpanStays(h, h', b);
      }
    }
  }

  lemma {:induction false} AllocatedFacts(s: Pages, s': Pages, a: nat, n: nat)
    requires Allocated(s, s', a, n)
    ensures s'.Ok() && s'.pageSize == s.pageSize && a !in s.Used() && a in s'.spans && s'.spans[a].pages == n
    ensures s'.Used() == s.Used() + {a} && SameUsed(s, s', {})
  {}

  lemma {:induction false} SameSpan(s: Pages, s': Pages, except: set<nat>, b: nat)
    requires SameUsed(s, s', except) && b in s.Used() && b !in except
    ensures b in s'.spans && b in s.spans && s'.spans[b].pages == s.spans[b].pages &&
      s'.spans[b].base == s.spans[b].base
  {}

  lemma {:induction false} ClassIsLarge(b: Blocks, n: nat, pageSize: nat)
    requires Fits(b, n, pageSize)
    ensures IsClass(b.cls)
  {}

  lemma {:induction false} FetchTasks(h: Heap, h': Heap, t: nat, a: nat)
    requires h.TasksInv() && t !in h.task && a !in h.busy && a !in h.blocks && t in h'.task && a in h'.blocks
    requires h'.blocks == h.blocks[a := h'.blocks[a]] && h'.task == h.task[t := h'.task[t]] &&
      h'.busy == h.busy[a := t] && h'.task[t].a == a
    requires h'.FetchedOk(t)
    ensures h'.TasksInv()
  {
    forall t' | t' in h'.task ensures h'.task[t'].a in h'.busy && h'.busy[h'.task[t'].a] == t' && h'.FetchedOk(t') {
      if t' != t {
        assert t' in h.task && h.FetchedOk(t');
        assert h.task[t'].a in h.busy && h.task[t'].a in h.blocks;
      }
    }
  }

  /** The other spans keep their places and their live blocks; span a has no live block. */
  lemma {:induction false} KeptLive(h: Heap, h': Heap, gone: set<nat>, a: nat)
    requires h.LiveInv() && h.SpansInv() && h'.live == h.live && SameUsed(h.pages, h'.pages, gone) &&
      h.blocks.Keys == h.pages.Used()
    requires gone <= {a} && forall b :: b in h.blocks && b != a ==> b in h'.blocks && h'.blocks[b] == h.blocks[b]
    requires forall b :: b in h'.blocks && b != a ==> b in h.blocks
    requires forall b :: b in h.owner && b != a <==> b in h'.owner && b != a
    requires forall b :: b in h.owner && b != a ==> h'.owner[b] == h.owner[b]
    requires a in h'.blocks ==> a in h'.busy
    requires a in h.blocks ==> a in h.busy
    requires forall b :: b != a ==> (b in h'.busy <==> b in h.busy)
    ensures h'.LiveInv()
  {
    hide Pages.Ok, BlockAddress, Fits, IsUpto;
    forall b, j: nat | b in h.blocks && b != a ensures h'.Address(b, j) == h.Address(b, j) {
      assert h.SpanInv(b);
      assert h'.pages.spans[b].base == h.pages.spans[b].base;
    }
    forall q | q in h'.live ensures h'.LiveAt(q) { assert h.LiveAt(q); }
  }

  lemma {:induction false} FullSet(s: set<nat>, n: nat)
    requires forall i :: i in s ==> i < n
    ensures |s| == n <==> IsUpto(s, n)
    ensures |s| <= n
  {
    if n == 0 {
      assert s == {};
    } else {
      FullSet(s - {n - 1}, n - 1);
      if n - 1 in s {
        assert |s| == |s - {n - 1}| + 1;
        assert forall i: nat :: i in s <==> i == n - 1 || i in s - {n - 1};
      } else {
        assert s - {n - 1} == s;
      }
    }
  }

  /** The bin of a small span's class once a block of the span has come back. */
  ghost function Rebinned(h: Heap, t: nat, a: nat): seq<nat>
    requires a in h.blocks
  {
    var b := h.blocks[a];
    var l := if b.free == {} then [a] + h.Bin(t, b.cls) else h.Bin(t, b.cls);
    if |b.free| + 1 == b.count then Without(l, a) else l
  }

  ghost function FreedLocal(h: Heap, t: nat, a: nat, i: nat): Heap
    requires a in h.blocks
  {
    var h1 := PutBlock(h.WithBin(t, h.blocks[a].cls, Rebinned(h, t, a)), a, i);
    if |h.blocks[a].free| + 1 != h.blocks[a].count then h1
    else h1.(task := h.task[t := Returning(a)], busy := h.busy[a := t])
  }

  /** The bin holds the other spans it held, and this one unless all its blocks are free. */
  lemma {:induction false} RebinnedFacts(h: Heap, t: nat, a: nat)
    requires h.BinsInv() && a in h.blocks && (h.blocks[a].free == {} <==> a !in h.Bin(t, h.blocks[a].cls))
    ensures NoDup(Rebinned(h, t, a))
    ensures forall x ::
      x in Rebinned(h, t, a) <==>
        if x == a then |h.blocks[a].free| + 1 != h.blocks[a].count else x in h.Bin(t, h.blocks[a].cls)
  {
    hide NoDup, Without;
    var b := h.blocks[a];
    var l := if b.free == {} then [a] + h.Bin(t, b.cls) else h.Bin(t, b.cls);
    if b.free == {} { NoDupPushed(h.Bin(t, b.cls), a); }
    WithoutFacts(l, a);
  }

  /** A block of one of the thread's own spans comes back. */
  lemma {:induction false} FreeLocalInv(h: Heap, t: nat, p: nat)
    requires h.Inv() && t !in h.task && p in h.live && h.live[p].a in h.owner && h.live[p].thread == t
    ensures h.live[p].a in h.blocks && FreedLocal(h, t, h.live[p].a, h.live[p].i).Inv()
  {
    hide Pages.Ok, IsUpto, NoDup, BlockAddress, Rebinned, Fits, Heap.BinsInv;
    assert h.LiveAt(p);
    var a, i := h.live[p].a, h.live[p].i;
    var h' := FreedLocal(h, t, a, i);
    FreedSet(h, a, i);
    FreedBins(h, t, a, i);
    FreedSpans(h, t, a, i);
    AllBut(h.blocks[a].free, i, h.blocks[a].count);
    FreedLive(h, h', p);
    FreedTasks(h, h', t, a);
  }

  lemma {:induction false} FreedSet(h: Heap, a: nat, i: nat)
    requires h.SpansInv() && a in h.blocks && i < h.blocks[a].count && i !in h.blocks[a].free
    ensures |h.blocks[a].free| + 1 == h.blocks[a].count <==> IsUpto(h.blocks[a].free + {i}, h.blocks[a].count)
  {
    hide Pages.Ok;
    assert h.SpanInv(a);
    FullSet(h.blocks[a].free + {i}, h.blocks[a].count);
  }

  lemma {:induction false} AllBut(s: set<nat>, i: nat, n: nat)
    ensures IsUpto(s + {i}, n) ==> forall j: nat :: j < n && j != i ==> j in s
  {
    if IsUpto(s + {i}, n) {
      forall j: nat | j < n && j != i ensures j in s { assert j in s + {i}; }
    }
  }

  lemma {:induction false} FreedBins(h: Heap, t: nat, a: nat, i: nat)
    requires h.SpansInv() && h.BinsInv() && a in h.blocks && a in h.owner && h.owner[a] == t && a !in h.busy
    ensures FreedLocal(h, t, a, i).BinsInv()
  {
    hide Pages.Ok, NoDup, BlockAddress, IsUpto, Rebinned, Fits;
    var h' := FreedLocal(h, t, a, i);
    assert h.SpanInv(a);
    RebinnedFacts(h, t, a);
    forall t', c'
      ensures h'.Bin(t', c') == (if t' == t && c' == h.blocks[a].cls then Rebinned(h, t, a) else h.Bin(t', c')) {}
  }

  lemma {:induction false} FreedSpan(h: Heap, t: nat, a: nat, i: nat)
    requires h.SpansInv() && h.BinsInv() && h.TasksInv() && t !in h.task && a in h.blocks && a in h.owner &&
      h.owner[a] == t && a !in h.busy
    requires i < h.blocks[a].count && i !in h.blocks[a].free
    requires |h.blocks[a].free| + 1 == h.blocks[a].count <==> IsUpto(h.blocks[a].free + {i}, h.blocks[a].count)
    ensures a in FreedLocal(h, t, a, i).blocks && FreedLocal(h, t, a, i).SpanInv(a)
    ensures h.blocks[a].free == {} <==> a !in h.Bin(t, h.blocks[a].cls)
  {
    hide Pages.Ok, NoDup, BlockAddress, IsUpto, Rebinned;
    assert h.SpanInv(a);
    RebinnedFacts(h, t, a);
    assert i in h.blocks[a].free + {i};
  }

  lemma {:induction false} FreedSpans(h: Heap, t: nat, a: nat, i: nat)
    requires h.SpansInv() && h.BinsInv() && h.TasksInv() && t !in h.task && a in h.blocks && a in h.owner &&
      h.owner[a] == t && a !in h.busy
    requires i < h.blocks[a].count && i !in h.blocks[a].free
    requires |h.blocks[a].free| + 1 == h.blocks[a].count <==> IsUpto(h.blocks[a].free + {i}, h.blocks[a].count)
    ensures FreedLocal(h, t, a, i).SpansInv()
  {
    hide Pages.Ok, NoDup, BlockAddress, IsUpto, Rebinned, Fits;
    var h' := FreedLocal(h, t, a, i);
    FreedSpan(h, t, a, i);
    RebinnedFacts(h, t, a);
    forall t', c'
      ensures h'.Bin(t', c') == (if t' == t && c' == h.blocks[a].cls then Rebinned(h, t, a) else h.Bin(t', c')) {}
    forall b | b in h'.blocks ensures h'.SpanInv(b) {
      if b != a {
        assert h.SpanInv(b);
        assert b in h.busy ==> h.busy[b] in h.task;
        SpanStays(h, h', b);
      }
    }
  }

  lemma {:induction false} FreedTasks(h: Heap, h': Heap, t: nat, a: nat)
    requires h.TasksInv() && t !in h.task && a in h.blocks && a !in h.busy && h'.blocks.Keys == h.blocks.Keys
    requires forall b :: b in h.blocks ==> h'.blocks[b].size == h.blocks[b].size
    requires (h'.task == h.task && h'.busy == h.busy) ||
      (h'.task == h.task[t := Returning(a)] && h'.busy == h.busy[a := t])
    ensures h'.TasksInv()
  {
    forall t' | t' in h'.task ensures h'.task[t'].a in h'.busy && h'.busy[h'.task[t'].a] == t' && h'.FetchedOk(t') {
      if t' in h.task { assert h.FetchedOk(t') && h.task[t'].a in h.busy; }
    }
  }

  /** With block i of span a free again, or a large span a on its way back, p is not live. */
  lemma {:induction false} FreedLive(h: Heap, h': Heap, p: nat)
    requires h.SpansInv() && h.LiveInv() && p in h.live && h.LiveAt(p) && h'.pages == h.pages && h'.live == h.live - {p}
    requires h'.owner == h.owner
    requires var a, i := h.live[p].a, h.live[p].i;
      a in h'.blocks && h'.blocks == h.blocks[a := h.blocks[a].(free := h'.blocks[a].free)] &&
      (a in h'.busy ==> forall j: nat :: j < h.blocks[a].count && j != i ==> j in h.blocks[a].free) &&
      (a !in h'.busy ==> h'.blocks[a].free == h.blocks[a].free + {i}) &&
      forall b :: b != a ==> (b in h'.busy <==> b in h.busy)
    ensures h'.LiveInv()
  {
    hide Pages.Ok, BlockAddress, Fits, IsUpto, Heap.SpansInv;
    var a, i := h.live[p].a, h.live[p].i;
    forall b, j: nat ensures h'.Address(b, j) == h.Address(b, j) {}
    forall q | q in h'.live ensures h'.LiveAt(q) { assert h.LiveAt(q); }
    forall b, j: nat | b in h'.blocks && b !in h'.busy && j < h'.blocks[b].count && j !in h'.blocks[b].free
      ensures h'.Address(b, j) in h'.live && h'.live[h'.Address(b, j)].a == b && h'.live[h'.Address(b, j)].i == j
    {
      assert h.Address(b, j) in h.live;
    }
  }

  ghost function FreedLarge(h: Heap, t: nat, p: nat): Heap
    requires p in h.live
  {
    h.(live := h.live - {p}, task := h.task[t := Returning(h.live[p].a)], busy := h.busy[h.live[p].a := t])
  }

  /** A large block comes back. */
  lemma {:induction false} FreeLargeInv(h: Heap, t: nat, p: nat)
    requires h.Inv() && t !in h.task && p in h.live && h.live[p].a !in h.owner
    ensures FreedLarge(h, t, p).Inv()
  {
    hide Pages.Ok, NoDup, BlockAddress;
    assert h.LiveAt(p);
    var a := h.live[p].a;
    var h' := FreedLarge(h, t, p);
    assert h.SpanInv(a);
    forall t', c' ensures h'.Bin(t', c') == h.Bin(t', c') {}
    forall b | b in h'.blocks ensures h'.SpanInv(b) {
      assert h.SpanInv(b);
      if b != a {
        assert b in h.busy ==> h.busy[b] in h.task;
        SpanStays(h, h', b);
      }
    }
    FreedLive(h, h', p);
    FreedTasks(h, h', t, a);
  }

  ghost function GivenBack(h: Heap, pages: Pages, t: nat, a: nat): Heap {
    h.(pages := pages, blocks := h.blocks - {a}, owner := h.owner - {a}, task := h.task - {t}, busy := h.busy - {a})
  }

  /** An emptied span is cached or unmapped. */
  lemma {:induction false} FreeLockedInv(h: Heap, pages: Pages, t: nat)
    requires h.Inv() && t in h.task && h.task[t].Returning? && Released(h.pages, pages, h.task[t].a)
    ensures GivenBack(h, pages, t, h.task[t].a).Inv()
  {
    hide Pages.Ok, Pages.Used, NoDup, BlockAddress, Fits, IsUpto, SameUsed, Released;
    var a := h.task[t].a;
    var h' := GivenBack(h, pages, t, a);
    assert t in h.task && a in h.busy && h.busy[a] == t;
    assert h.SpanInv(a);
    ReleasedFacts(h.pages, pages, a);
    forall t', c' ensures h'.Bin(t', c') == h.Bin(t', c') {}
    forall t', c' ensures a !in h.Bin(t', c') {}
    forall b | b in h'.blocks ensures h'.SpanInv(b) {
      assert h.SpanInv(b);
      assert b in h.busy ==> h.busy[b] in h.task && h.busy[b] != t;
      SameSpan(h.pages, pages, {a}, b);
      SpanStays(h, h', b);
    }
    KeptLive(h, h', {a}, a);
    BackTasks(h, h', t, a);
  }

  lemma {:induction false} BackTasks(h: Heap, h': Heap, t: nat, a: nat)
    requires h.TasksInv() && t in h.task && h.task[t].a == a && h'.blocks == h.blocks - {a} &&
      h'.task == h.task - {t} && h'.busy == h.busy - {a}
    ensures h'.TasksInv()
  {
    forall t' | t' in h'.task ensures h'.task[t'].a in h'.busy && h'.busy[h'.task[t'].a] == t' && h'.FetchedOk(t') {
      assert t' in h.task && h.FetchedOk(t') && h.task[t'].a in h.busy && h.task[t].a in h.busy;
    }
  }

  lemma {:induction false} ReleasedFacts(s: Pages, s': Pages, a: nat)
    requires Released(s, s', a)
    ensures s'.Ok() && s'.pageSize == s.pageSize && s'.Used() == s.Used() - {a} && SameUsed(s, s', {a})
  {}

  // ---- every step of every thread keeps the invariant ----

  lemma {:induction false} AllocLocalInv(h: Heap, h': Heap, t: nat, request: nat, c: int, p: nat)
    requires h.Inv() && AllocLocal(h, h', t, request, c, p)
    ensures h'.Inv()
  {
    hide Pages.Ok, IsUpto, NoDup, BlockAddress, Without, Take, Fits;
    var a := h.Bin(t, c)[0];
    var i :| Least(h.blocks[a].free, i) && p == h.Address(a, i) &&
      h' == Take(if |h.blocks[a].free| == 1 then h.WithBin(t, c, Without(h.Bin(t, c), a)) else h, t, a, i, request);
    assert a in h.Bin(t, c);
    assert h.SpanInv(a);
    BlockHolds(h, a, request);
    TakeLocal(h, if |h.blocks[a].free| == 1 then h.WithBin(t, c, Without(h.Bin(t, c), a)) else h, t, c, a, i, request);
  }

  /** Keeping the class's block size is part of the invariant, through the tables. */
  lemma {:induction false} BlockHolds(h: Heap, a: nat, request: nat)
    requires a in h.blocks && a in h.pages.spans && Fits(h.blocks[a], h.pages.spans[a].pages, h.pages.pageSize)
    requires h.blocks[a].cls != LARGE_CLASS_SIZE_INDEX && ClassFor(request, h.blocks[a].cls)
    ensures Serves(h.blocks[a].size, request)
  {
    hide Times, Serves;
    LeastServes(request, h.blocks[a].cls);
  }

  lemma {:induction false} StepKeeps(h: Heap, h': Heap, t: nat)
    requires h.Inv() && StepOf(h, h', t)
    ensures h'.Inv()
  {
    hide Heap.Inv, AllocLocal, AllocLocked, AllocFinish, FreeLocal, FreeLarge, FreeLocked;
    if request: nat, c: int, p: nat :| AllocLocal(h, h', t, request, c, p) {
      AllocLocalInv(h, h', t, request, c, p);
    } else if p: nat :| AllocFinish(h, h', t, p) {
      AllocFinishInv(h, h', t, p);
    } else if p: nat :| FreeLocal(h, h', t, p) {
      LocalFreed(h, h', t, p);
    } else if p: nat :| FreeLarge(h, h', t, p) {
      LargeFreed(h, h', t, p);
    } else if request: nat, c: int :| AllocLocked(h, h', t, request, c) {
      AllocLockedInv(h, h', t, request, c);
    } else {
      LockedFreed(h, h', t);
    }
  }

  lemma {:induction false} AllocFinishInv(h: Heap, h': Heap, t: nat, p: nat)
    requires h.Inv() && AllocFinish(h, h', t, p)
    ensures h'.Inv()
  {
    hide Heap.Inv, Take, BlockAddress;
    var a := h.task[t].a;
    var i :| Least(h.blocks[a].free, i) && p == h.Address(a, i) &&
      h' == Take(Binned(h, t, a), t, a, i, h.task[t].request).(task := h.task - {t}, busy := h.busy - {a});
    FinishInv(h, t, i);
  }

  lemma {:induction false} AllocLockedInv(h: Heap, h': Heap, t: nat, request: nat, c: int)
    requires h.Inv() && AllocLocked(h, h', t, request, c)
    ensures h'.Inv()
  {
    hide Heap.Inv, Allocated, FetchSpan, ClassFor, PageCount;
    var a, free :| Allocated(h.pages, h'.pages, a, PageCount(SpanBytes(c, request), h.pages.pageSize)) &&
      IsUpto(free, BlocksIn(c)) &&
      h' == FetchSpan(h, h'.pages, t, request, c, a, free);
    FetchInv(h, h'.pages, t, request, c, a, free);
  }

  lemma {:induction false} LocalFreed(h: Heap, h': Heap, t: nat, p: nat)
    requires h.Inv() && FreeLocal(h, h', t, p)
    ensures h'.Inv()
  {
    hide Heap.Inv, FreedLocal;
    FreeLocalInv(h, t, p);
  }

  lemma {:induction false} LargeFreed(h: Heap, h': Heap, t: nat, p: nat)
    requires h.Inv() && FreeLarge(h, h', t, p)
    ensures h'.Inv()
  {
    hide Heap.Inv, FreedLarge;
    FreeLargeInv(h, t, p);
  }

  lemma {:induction false} LockedFreed(h: Heap, h': Heap, t: nat)
    requires h.Inv() && FreeLocked(h, h', t)
    ensures h'.Inv()
  {
    hide Heap.Inv, GivenBack, Released;
    FreeLockedInv(h, h'.pages, t);
  }

  /** Before the first call. */
  ghost predicate Initial(h: Heap) {
    h.pages.Ok() && h.pages.pageSize % 16 == 0 && h.pages.Used() == {} &&
    h.blocks == map[] && h.owner == map[] && h.bins == map[] && h.task == map[] && h.busy == map[] && h.live == map[]
  }

  lemma {:induction false} InitialInv(h: Heap)
    requires Initial(h)
    ensures h.Inv()
  {
    hide Pages.Ok;
  }

  /** The states of a run: some thread takes each step. */
  ghost predicate Run(run: seq<Heap>) {
    run != [] && Initial(run[0]) && forall n :: 0 <= n < |run| - 1 ==> Step(run[n], run[n + 1])
  }

  /** In every state of every run of any number of threads the invariant holds. */
  lemma {:induction false} RunsSafe(run: seq<Heap>, n: nat)
    requires Run(run) && n < |run|
    ensures run[n].Inv()
  {
    hide Pages.Ok, StepOf, Initial;
    if n == 0 {
      InitialInv(run[0]);
    } else {
      RunsSafe(run, n - 1);
      assert Step(run[n - 1], run[n - 1 + 1]);
      var t: nat :| StepOf(run[n - 1], run[n], t);
      StepKeeps(run[n - 1], run[n], t);
    }
  }

  // ---- what the invariant means ----

  /** A live block is aligned, holds its request, and every address in it leads to its span. */
  lemma {:induction false} LiveSafe(h: Heap, p: nat, x: nat)
    requires h.Inv() && h.Inside(p, x)
    ensures p % 16 == 0 && p in h.live && h.live[p].a in h.blocks
    ensures h.live[p].request <= h.blocks[h.live[p].a].size
    ensures h.pages.pageSize > 0 && At(h.pages.table, Quotient(x, h.pages.pageSize)) == h.live[p].a
  {
    hide Pages.SpansOk, Pages.TableOk, Pages.ChunksOk, Pages.PoolOk, Heap.BinsInv, Heap.TasksInv;
    assert h.LiveAt(p);
    var a, i := h.live[p].a, h.live[p].i;
    BlockPage(h, a, i, x);
    BlockAligned(h, a, i);
  }

  lemma {:induction false} BlockAligned(h: Heap, a: nat, i: nat)
    requires h.SpansInv() && a in h.blocks && i < h.blocks[a].count
    ensures h.Address(a, i) % 16 == 0
  {
    hide Pages.TableOk, Pages.ChunksOk, Pages.PoolOk, ClassSpan, Times;
    assert h.SpanInv(a) && h.pages.SpanOk(a);
    LargeIsFirst(h.blocks[a], h.pages.spans[a].pages, h.pages.pageSize, i);
    MultipleOf16(h.pages.page[a], h.pages.pageSize);
    if i > 0 { MultipleOf16(i, h.blocks[a].size); }
  }

  lemma {:induction false} LargeIsFirst(b: Blocks, n: nat, pageSize: nat, i: nat)
    requires Fits(b, n, pageSize) && i < b.count
    ensures b.size % 16 == 0 || i == 0
    ensures Times(0, b.size) == 0
  {}

  lemma {:induction false} MultipleOf16(n: nat, d: nat)
    requires d % 16 == 0
    ensures Times(n, d) % 16 == 0
  {
    if n > 0 { MultipleOf16(n - 1, d); }
  }

  /** A live block is of the least class that holds its request, or of exactly the size requested; less than
      half of it is slack. */
  lemma {:induction false} LiveSnug(h: Heap, p: nat)
    requires h.Inv() && p in h.live
    ensures h.live[p].a in h.blocks
    ensures var request, size := h.live[p].request, h.blocks[h.live[p].a].size;
      request <= size && (request > 32768 ==> size == request) && (request >= 9 ==> size <= 2 * (request - 1)) &&
      forall i {:trigger SIZE_CLASSES[i]} ::
        0 <= i < |SIZE_CLASSES| && request <= SIZE_CLASSES[i] ==> size <= SIZE_CLASSES[i]
  {
    hide Heap.SpansInv, Heap.BinsInv, Heap.TasksInv, BlockAddress;
    assert h.LiveAt(p);
  }

  /** A span in use has as many blocks as its pages have room for: another would not fit, but for less than a
      page that rounding up has added. A large span has one block and not a page too many. */
  lemma {:induction false} SpanFull(h: Heap, a: nat)
    requires h.Inv() && a in h.blocks
    ensures a in h.pages.spans
    ensures var b, n, pageSize := h.blocks[a], h.pages.spans[a].pages, h.pages.pageSize;
      Times(b.count, b.size) <= Times(n, pageSize) &&
      if a in h.owner then
        0 <= b.cls < |SIZE_CLASSES| && b.size == SIZE_CLASSES[b.cls] && 2 <= b.count &&
        Times(n, pageSize) < Times(b.count + 1, b.size) + pageSize
      else b.count == 1 && n > 0 && Times(n - 1, pageSize) < b.size
  {
    hide Pages.Ok, Heap.BinsInv, Heap.TasksInv, Heap.LiveInv, Times, ClassSpan;
    assert h.SpanInv(a);
    var b := h.blocks[a];
    if a in h.owner {
      NoMoreRoom(b.cls, b.size, b.count, h.pages.spans[a].pages, h.pages.pageSize);
      ClassSpanSays(b.cls, b.size, b.count, h.pages.spans[a].pages, h.pages.pageSize);
    }
  }

  lemma {:induction false} ClassSpanSays(c: int, size: nat, count: nat, n: nat, pageSize: nat)
    requires ClassSpan(c, size, count, n, pageSize)
    ensures 0 <= c < |SIZE_CLASSES| && size == SIZE_CLASSES[c]
  {}

  /** No byte belongs to two live blocks, whichever threads hold them. */
  lemma {:induction false} LiveDisjoint(h: Heap, p: nat, q: nat, x: nat)
    requires h.Inv() && h.Inside(p, x) && h.Inside(q, x)
    ensures p == q
  {
    hide Pages.Ok, Heap.BinsInv, Heap.TasksInv, Fits, BlockAddress;
    assert h.LiveAt(p) && h.LiveAt(q);
    BlocksApart(h, h.live[p].a, h.live[p].i, h.live[q].a, h.live[q].i, x);
  }

  /** Every span in a bin has a free block and one handed out: taking a block from it cannot fail. */
  lemma {:induction false} BinHasBlock(h: Heap, t: nat, c: int, a: nat)
    requires h.Inv() && a in h.Bin(t, c)
    ensures a in h.blocks && 0 < |h.blocks[a].free| < h.blocks[a].count && h.blocks[a].cls == c && a in h.owner &&
      h.owner[a] == t
  {
    hide Pages.Ok, NoDup;
    assert h.SpanInv(a);
    FullSet(h.blocks[a].free, h.blocks[a].count);
  }

  /** A span that belongs in a bin is there: a thread never fetches a span while one of its own could
      serve the request. */
  lemma {:induction false} EmptyBinMeansFull(h: Heap, t: nat, c: int, a: nat)
    requires h.Inv() && h.Bin(t, c) == [] && a in h.blocks && a in h.owner && h.owner[a] == t && h.blocks[a].cls == c &&
      a !in h.busy
    ensures h.blocks[a].free == {}
  {
    hide Pages.Ok, NoDup;
    assert h.SpanInv(a);
  }

  /** Once everything is freed and no thread is in the middle of anything, every bin is empty, every span
      is cached, and so no region is left but the chunks, all of whose pages the pool holds. */
  lemma {:induction false} AllReturned(h: Heap)
    requires h.Inv() && h.live == map[] && h.task == map[]
    ensures h.blocks == map[] && h.pages.Used() == {} && forall t, c :: h.Bin(t, c) == []
    ensures h.pages.spans.Keys == h.pages.home.Keys == h.pages.place.Keys
    ensures DataRegions(h.pages) == set c | c in h.pages.tiles :: Times(c, h.pages.pageSize)
    ensures Sum(Weights(h.pages), h.pages.place.Keys) == Sum(h.pages.size, h.pages.tiles.Keys)
  {
    hide Pages.SpansOk, Pages.TableOk, Pages.ChunksOk, Pages.PoolOk, NoDup, BlockAddress;
    forall a ensures a !in h.blocks { SpanHasLive(h, a); }
    forall t, c ensures h.Bin(t, c) == [] {
      HeadIn(h.Bin(t, c));
    }
    PagesConserved(h.pages);
    forall a ensures a in h.pages.spans ==> a in h.pages.place { assert a !in h.pages.Used(); }
    assert h.pages.home.Keys - h.pages.place.Keys == {};
  }

  /** Outside a task a span in use has a live block. */
  lemma {:induction false} SpanHasLive(h: Heap, a: nat)
    requires h.Inv()
    ensures a in h.blocks && h.task == map[] ==> h.live != map[]
  {
    hide Pages.Ok, NoDup, BlockAddress;
    if a in h.blocks && h.task == map[] {
      assert h.SpanInv(a);
      SomeTaken(h, a);
      var i: nat :| i < h.blocks[a].count && i !in h.blocks[a].free;
      assert h.Address(a, i) in h.live;
    }
  }

  lemma {:induction false} SomeTaken(h: Heap, a: nat)
    requires a in h.blocks && !IsUpto(h.blocks[a].free, h.blocks[a].count)
    requires forall i :: i in h.blocks[a].free ==> i < h.blocks[a].count
    ensures exists i: nat :: i < h.blocks[a].count && i !in h.blocks[a].free
  {}

  // ---- footprints ----

  /** Thread t works on span a: it owns it, or is in the middle of something with it. */
  ghost predicate Mine(h: Heap, t: nat, a: nat) {
    (a in h.owner && h.owner[a] == t) || (a in h.busy && h.busy[a] == t)
  }

  /** Other threads find their bins, their tasks and the blocks of their spans as they left them, and
      the small blocks they hold stay live. */
  ghost predicate OthersKept(h: Heap, h': Heap, t: nat) {
    (forall p ::
      p in h.live && h.live[p].a in h.owner && h.live[p].thread != t ==> p in h'.live && h'.live[p] == h.live[p]) &&
    (forall t', c :: t' != t ==> h'.Bin(t', c) == h.Bin(t', c)) &&
    (forall t' :: t' in h.task && t' != t ==> t' in h'.task && h'.task[t'] == h.task[t']) &&
    (forall a :: a in h.blocks && !Mine(h, t, a) ==> a in h'.blocks && h'.blocks[a] == h.blocks[a])
  }

  /** Outside the lock a thread changes blocks of its own spans only, and no page, mapping or link of
      the page heap. */
  lemma {:induction false} LocalFootprint(h: Heap, h': Heap, t: nat)
    requires h.Inv() && LocalStep(h, h', t)
    ensures h'.pages == h.pages && OthersKept(h, h', t)
  {
    hide Heap.Inv, AllocLocal, AllocFinish, FreeLocal, FreeLarge;
    if request: nat, c: int, p: nat :| AllocLocal(h, h', t, request, c, p) {
      AllocLocalKeeps(h, h', t, request, c, p);
    } else if p: nat :| AllocFinish(h, h', t, p) {
      AllocFinishKeeps(h, h', t, p);
    } else if p: nat :| FreeLocal(h, h', t, p) {
      FreeLocalKeeps(h, h', t, p);
    } else {
      var p: nat :| FreeLarge(h, h', t, p);
      FreeLargeKeeps(h, h', t, p);
    }
  }

  lemma {:induction false} AllocLocalKeeps(h: Heap, h': Heap, t: nat, request: nat, c: int, p: nat)
    requires h.Inv() && AllocLocal(h, h', t, request, c, p)
    ensures h'.pages == h.pages && OthersKept(h, h', t)
  {
    hide Pages.Ok, NoDup, BlockAddress, IsUpto, Heap.SpansInv, Heap.BinsInv, Heap.TasksInv, Heap.LiveInv, Without,
      Least, ClassFor, OthersKept;
    var a := h.Bin(t, c)[0];
    BinHasBlock(h, t, c, a);
    var i :| Least(h.blocks[a].free, i) && p == h.Address(a, i) &&
      h' == Take(if |h.blocks[a].free| == 1 then h.WithBin(t, c, Without(h.Bin(t, c), a)) else h, t, a, i, request);
    FreeBound(h, a, i);
    FreshAddress(h, a, i);
    forall t', c' | t' != t ensures h'.Bin(t', c') == h.Bin(t', c') {}
    OnlyMine(h, h', t, a);
  }

  lemma {:induction false} FreeBound(h: Heap, a: nat, i: nat)
    requires h.SpansInv() && a in h.blocks && Least(h.blocks[a].free, i)
    ensures i < h.blocks[a].count && i in h.blocks[a].free
  {
    assert h.SpanInv(a);
  }

  lemma {:induction false} AllocFinishKeeps(h: Heap, h': Heap, t: nat, p: nat)
    requires h.Inv() && AllocFinish(h, h', t, p)
    ensures h'.pages == h.pages && OthersKept(h, h', t)
  {
    hide Pages.Ok, NoDup, BlockAddress, IsUpto, Heap.SpansInv, Heap.BinsInv, Heap.LiveInv, Binned, Least, OthersKept;
    assert t in h.task;
    var a := h.task[t].a;
    BinnedElsewhere(h, t, a);
    var i :| Least(h.blocks[a].free, i) && p == h.Address(a, i) &&
      h' == Take(Binned(h, t, a), t, a, i, h.task[t].request).(task := h.task - {t}, busy := h.busy - {a});
    FreeBound(h, a, i);
    FreshAddress(h, a, i);
    forall t', c | t' != t ensures h'.Bin(t', c) == h.Bin(t', c) { assert h'.Bin(t', c) == Binned(h, t, a).Bin(t', c); }
    OnlyMine(h, h', t, a);
  }

  /** A step that adds live blocks and works on one span of the thread's own. */
  lemma {:induction false} OnlyMine(h: Heap, h': Heap, t: nat, a: nat)
    requires (a in h.blocks ==> Mine(h, t, a)) && Extends(h.live, h'.live)
    requires forall t', c :: t' != t ==> h'.Bin(t', c) == h.Bin(t', c)
    requires forall b :: b in h.blocks && b != a ==> b in h'.blocks && h'.blocks[b] == h.blocks[b]
    requires forall t' :: t' in h.task && t' != t ==> t' in h'.task && h'.task[t'] == h.task[t']
    ensures OthersKept(h, h', t)
  {}

  lemma {:induction false} BinnedElsewhere(h: Heap, t: nat, a: nat)
    requires a in h.blocks
    ensures forall t', c {:trigger Binned(h, t, a).Bin(t', c)} :: t' != t ==> Binned(h, t, a).Bin(t', c) == h.Bin(t', c)
    ensures var h1 := Binned(h, t, a); h1 == h.(bins := h1.bins)
  {}

  /** A free block is not live. */
  lemma {:induction false} FreshAddress(h: Heap, a: nat, i: nat)
    requires h.Inv() && a in h.blocks && i in h.blocks[a].free && i < h.blocks[a].count
    ensures h.Address(a, i) !in h.live
  {
    hide Pages.Ok, NoDup, BlockAddress, IsUpto, Fits, Heap.SpansInv, Heap.BinsInv, Heap.TasksInv;
    var p := h.Address(a, i);
    if p in h.live {
      assert h.LiveAt(p);
      AddressesDiffer(h, a, i, h.live[p].a, h.live[p].i);
      assert false;
    }
  }

  lemma {:induction false} FreeLocalKeeps(h: Heap, h': Heap, t: nat, p: nat)
    requires h.Inv() && FreeLocal(h, h', t, p)
    ensures h'.pages == h.pages && OthersKept(h, h', t)
  {
    hide Pages.Ok, Heap.SpansInv, Heap.BinsInv, Heap.TasksInv, BlockAddress, Rebinned, OthersKept;
    assert h.LiveAt(p);
    forall t', c | t' != t ensures h'.Bin(t', c) == h.Bin(t', c) {}
    OnlyMineFreed(h, h', t, p);
  }

  /** A step that takes back a block of one of the thread's own spans. */
  lemma {:induction false} OnlyMineFreed(h: Heap, h': Heap, t: nat, p: nat)
    requires p in h.live && h.live[p].thread == t && Mine(h, t, h.live[p].a) && h'.live == h.live - {p}
    requires forall t', c :: t' != t ==> h'.Bin(t', c) == h.Bin(t', c)
    requires forall b :: b in h.blocks && b != h.live[p].a ==> b in h'.blocks && h'.blocks[b] == h.blocks[b]
    requires forall t' :: t' in h.task && t' != t ==> t' in h'.task && h'.task[t'] == h.task[t']
    ensures OthersKept(h, h', t)
  {}

  lemma {:induction false} FreeLargeKeeps(h: Heap, h': Heap, t: nat, p: nat)
    requires h.Inv() && FreeLarge(h, h', t, p)
    ensures h'.pages == h.pages && OthersKept(h, h', t)
  {
    hide Heap.Inv;
  }

  /** Under the lock a thread touches no block and no bin of a span that it did not fetch or is not
      giving back, and leaves every other span in use where it is. */
  lemma {:induction false} LockedFootprint(h: Heap, h': Heap, t: nat)
    requires h.Inv() && LockedStep(h, h', t)
    ensures OthersKept(h, h', t) && h'.live == h.live && h'.bins == h.bins
    ensures forall a :: a in h.blocks && !(t in h.task && a == h.task[t].a) ==>
      a in h'.blocks && h'.blocks[a] == h.blocks[a] && a in h.pages.spans && a in h'.pages.spans &&
      h'.pages.spans[a].base == h.pages.spans[a].base && h'.pages.spans[a].pages == h.pages.spans[a].pages
  {
    hide Heap.Inv, AllocLocked, FreeLocked;
    if request: nat, c: int :| AllocLocked(h, h', t, request, c) {
      AllocLockedKeeps(h, h', t, request, c);
    } else {
      FreeLockedKeeps(h, h', t);
    }
  }

  lemma {:induction false} AllocLockedKeeps(h: Heap, h': Heap, t: nat, request: nat, c: int)
    requires h.Inv() && AllocLocked(h, h', t, request, c)
    ensures OthersKept(h, h', t) && h'.live == h.live && h'.bins == h.bins
    ensures forall a :: a in h.blocks ==>
      a in h'.blocks && h'.blocks[a] == h.blocks[a] && a in h.pages.spans && a in h'.pages.spans &&
      h'.pages.spans[a].base == h.pages.spans[a].base && h'.pages.spans[a].pages == h.pages.spans[a].pages
  {
    hide Pages.Ok, NoDup, BlockAddress, Fits, IsUpto, ClassFor, PageCount, Allocated, SameUsed, Heap.SpanInv,
      Heap.BinsInv, Heap.LiveInv, OthersKept;
    var a, free :| Allocated(h.pages, h'.pages, a, PageCount(SpanBytes(c, request), h.pages.pageSize)) &&
      IsUpto(free, BlocksIn(c)) &&
      h' == FetchSpan(h, h'.pages, t, request, c, a, free);
    AllocatedFacts(h.pages, h'.pages, a, PageCount(SpanBytes(c, request), h.pages.pageSize));
    forall b | b in h.blocks ensures b in h.pages.spans && b in h'.pages.spans &&
      h'.pages.spans[b].base == h.pages.spans[b].base && h'.pages.spans[b].pages == h.pages.spans[b].pages
    {
      SameSpan(h.pages, h'.pages, {}, b);
    }
    forall t', c' ensures h'.Bin(t', c') == h.Bin(t', c') {}
    OnlyMine(h, h', t, a);
  }

  lemma {:induction false} FreeLockedKeeps(h: Heap, h': Heap, t: nat)
    requires h.Inv() && FreeLocked(h, h', t)
    ensures OthersKept(h, h', t) && h'.live == h.live && h'.bins == h.bins && t in h.task
    ensures forall a :: a in h.blocks && a != h.task[t].a ==>
      a in h'.blocks && h'.blocks[a] == h.blocks[a] && a in h.pages.spans && a in h'.pages.spans &&
      h'.pages.spans[a].base == h.pages.spans[a].base && h'.pages.spans[a].pages == h.pages.spans[a].pages
  {
    hide Pages.Ok, NoDup, BlockAddress, Fits, IsUpto, Released, SameUsed, Heap.SpanInv, Heap.BinsInv, Heap.LiveInv,
      OthersKept;
    assert t in h.task;
    ReleasedFacts(h.pages, h'.pages, h.task[t].a);
    forall b | b in h.blocks && b != h.task[t].a ensures b in h.pages.spans && b in h'.pages.spans &&
      h'.pages.spans[b].base == h.pages.spans[b].base && h'.pages.spans[b].pages == h.pages.spans[b].pages
    {
      SameSpan(h.pages, h'.pages, {h.task[t].a}, b);
    }
    forall t', c' ensures h'.Bin(t', c') == h.Bin(t', c') {}
    OnlyMine(h, h', t, h.task[t].a);
  }
}
