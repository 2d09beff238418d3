/** Whole operations as runs of steps, and what they mean to a client: which blocks are live
    afterwards, and which bytes have not changed. */
module HeapRuns {
  import opened Linear
  import opened RangeMapSpec
  import opened MetadataState
  import opened Spans
  import opened PageState
  import opened PageSteps
  import opened SizeClasses
  import opened HeapState
  import BinLinks

  /** An uninterrupted cmalloc of thread t: from its bin, or through the lock. */
  ghost predicate AllocRun(h: Heap, h': Heap, t: nat, request: nat, c: int, p: nat) {
    AllocLocal(h, h', t, request, c, p) || exists m :: AllocLocked(h, m, t, request, c) && AllocFinish(m, h', t, p)
  }

  /** Block p is new and thread t's, and the blocks that were live are where they were. */
  ghost predicate HandedOut(h: Heap, h': Heap, t: nat, request: nat, p: nat) {
    p !in h.live && p in h'.live && h'.live == h.live[p := h'.live[p]] && h'.live[p].request == request &&
    h'.live[p].thread == t && h'.task == h.task &&
    forall q :: q in h.live ==> SameBlock(h, h', q)
  }

  /** Live block q keeps its span, the span's owner and its length. */
  ghost predicate SameBlock(h: Heap, h': Heap, q: nat) {
    q in h.live && q in h'.live && h'.live[q] == h.live[q] && h.live[q].a in h.blocks && h.live[q].a in h'.blocks &&
    h'.blocks[h.live[q].a].size == h.blocks[h.live[q].a].size &&
    (h.live[q].a in h'.owner <==> h.live[q].a in h.owner) &&
    (h.live[q].a in h.owner ==> h'.owner[h.live[q].a] == h.owner[h.live[q].a])
  }

  lemma {:induction false} AllocLocalOut(h: Heap, h': Heap, t: nat, request: nat, c: int, p: nat)
    requires h.Inv() && AllocLocal(h, h', t, request, c, p)
    ensures HandedOut(h, h', t, request, p)
  {
    hide Pages.Ok, NoDup, BlockAddress, IsUpto, Heap.SpansInv, Heap.BinsInv, Heap.TasksInv, Without, Least, ClassFor,
      HandedOut;
    var a := h.Bin(t, c)[0];
    HeadIn(h.Bin(t, c));
    BinHasBlock(h, t, c, a);
    var i :| Least(h.blocks[a].free, i) && p == h.Address(a, i) &&
      h' == Take(if |h.blocks[a].free| == 1 then h.WithBin(t, c, Without(h.Bin(t, c), a)) else h, t, a, i, request);
    FreeBound(h, a, i);
    FreshAddress(h, a, i);
    TakenOut(h, h', t, a, i, request);
  }

  lemma {:induction false} TakenOut(h: Heap, h': Heap, t: nat, a: nat, i: nat, request: nat)
    requires h.LiveInv() && a in h.blocks && h.Address(a, i) !in h.live
    requires h'.blocks == h.blocks[a := h.blocks[a].(free := h.blocks[a].free - {i})] && h'.owner == h.owner &&
      h'.task == h.task
    requires h'.live == h.live[h.Address(a, i) := LiveBlock(a, i, request, t)]
    ensures HandedOut(h, h', t, request, h.Address(a, i))
  {
    hide BlockAddress, IsUpto;
    forall q | q in h.live ensures SameBlock(h, h', q) { assert h.LiveAt(q); }
  }

  lemma {:induction false} AllocLockedOut(h: Heap, m: Heap, t: nat, request: nat, c: int)
    requires h.Inv() && AllocLocked(h, m, t, request, c)
    ensures m.Inv() && m.live == h.live && t !in h.task && t in m.task && m.task == h.task[t := m.task[t]] &&
      m.task[t].Fetched? && m.task[t].request == request
    ensures m.task[t].a in m.blocks && m.blocks[m.task[t].a].cls == c
    ensures forall q :: q in h.live ==> SameBlock(h, m, q)
  {
    AllocLockedInv(h, m, t, request, c);
    hide Pages.Ok, NoDup, BlockAddress, IsUpto, Heap.SpansInv, Heap.BinsInv, Heap.TasksInv, ClassFor, PageCount,
      Allocated, Fits;
    AllocLockedKeeps(h, m, t, request, c);
    AllocLockedOwner(h, m, t, request, c);
    hide AllocLocked;
    forall q | q in h.live ensures SameBlock(h, m, q) { assert h.LiveAt(q); }
  }

  lemma {:induction false} AllocLockedOwner(h: Heap, m: Heap, t: nat, request: nat, c: int)
    requires h.Inv() && AllocLocked(h, m, t, request, c)
    ensures forall b ::
      b in h.blocks ==> (b in m.owner <==> b in h.owner) && (b in h.owner ==> m.owner[b] == h.owner[b])
  {
    hide Pages.Ok, NoDup, BlockAddress, IsUpto, Heap.SpanInv, Heap.BinsInv, Heap.TasksInv, Heap.LiveInv, ClassFor,
      PageCount, Allocated, Fits;
    var a, free :| Allocated(h.pages, m.pages, a, PageCount(SpanBytes(c, request), h.pages.pageSize)) &&
      IsUpto(free, BlocksIn(c)) &&
      m == FetchSpan(h, m.pages, t, request, c, a, free);
    AllocatedFacts(h.pages, m.pages, a, PageCount(SpanBytes(c, request), h.pages.pageSize));
  }

  lemma {:induction false} AllocFinishOut(m: Heap, h': Heap, t: nat, p: nat)
    requires m.Inv() && AllocFinish(m, h', t, p)
    ensures p !in m.live && p in h'.live && h'.live == m.live[p := h'.live[p]]
    ensures h'.live[p].request == m.task[t].request && h'.live[p].thread == t
    ensures h'.task == m.task - {t} && forall q :: q in m.live ==> SameBlock(m, h', q)
  {
    hide Pages.Ok, NoDup, BlockAddress, IsUpto, Heap.SpansInv, Heap.BinsInv, Heap.TasksInv, Least, Binned;
    var a := m.task[t].a;
    BinnedElsewhere(m, t, a);
    var i :| Least(m.blocks[a].free, i) && p == m.Address(a, i) &&
      h' == Take(Binned(m, t, a), t, a, i, m.task[t].request).(task := m.task - {t}, busy := m.busy - {a});
    FreeBound(m, a, i);
    FreshAddress(m, a, i);
    forall q | q in m.live ensures SameBlock(m, h', q) { assert m.LiveAt(q); }
  }

  /** An operation that allocates hands out one new block and moves no other. */
  lemma {:induction false} AllocRunOut(h: Heap, h': Heap, t: nat, request: nat, c: int, p: nat)
    requires h.Inv() && AllocRun(h, h', t, request, c, p)
    ensures h'.Inv() && HandedOut(h, h', t, request, p)
  {
    hide Heap.Inv, AllocLocal, AllocLocked, AllocFinish;
    if AllocLocal(h, h', t, request, c, p) {
      AllocLocalInv(h, h', t, request, c, p);
      AllocLocalOut(h, h', t, request, c, p);
    } else {
      var m :| AllocLocked(h, m, t, request, c) && AllocFinish(m, h', t, p);
      AllocLockedOut(h, m, t, request, c);
      AllocFinishInv(m, h', t, p);
      AllocFinishOut(m, h', t, p);
      forall q | q in h.live ensures SameBlock(h, h', q) { assert SameBlock(h, m, q) && SameBlock(m, h', q); }
      assert h'.task == h.task;
    }
  }

  // ---- which block an allocation takes, and what becomes of the bins ----

  ghost predicate OtherBins(h: Heap, h': Heap, t: nat, c: int) {
    forall t', c' {:trigger h'.Bin(t', c')} :: t' != t || c' != c ==> h'.Bin(t', c') == h.Bin(t', c')
  }

  /** Block p is the lowest free one of the first span in the bin, which leaves the bin if it was the last one
      free; no page has come into use. */
  ghost predicate FromBin(h: Heap, h': Heap, t: nat, c: int, p: nat) {
    p in h'.live && h.Bin(t, c) != [] && h'.pages == h.pages && OtherBins(h, h', t, c) &&
    var a, i := h'.live[p].a, h'.live[p].i;
    a == h.Bin(t, c)[0] && a in h.blocks && i in h.blocks[a].free && (forall j :: j in h.blocks[a].free ==> i <= j) &&
    h'.Bin(t, c) == if h.blocks[a].free == {i} then h.Bin(t, c)[1..] else h.Bin(t, c)
  }

  /** Block p is the first one of a span that was not in use; the bin of a small one holds nothing else. */
  ghost predicate FromNew(h: Heap, h': Heap, t: nat, c: int, p: nat) {
    p in h'.live && h'.live[p].a !in h.blocks && h'.live[p].i == 0 && OtherBins(h, h', t, c) &&
    h'.Bin(t, c) == if c == LARGE_CLASS_SIZE_INDEX then h.Bin(t, c) else [h'.live[p].a]
  }

  lemma {:induction false} TakenFromBin(h: Heap, h': Heap, t: nat, request: nat, c: int, p: nat)
    requires h.Inv() && AllocLocal(h, h', t, request, c, p)
    ensures FromBin(h, h', t, c, p)
  {
    hide Heap.Inv, ClassFor, BlockAddress;
    var a, l := h.Bin(t, c)[0], h.Bin(t, c);
    var h1 := if |h.blocks[a].free| == 1 then h.WithBin(t, c, Without(l, a)) else h;
    var i :| Least(h.blocks[a].free, i) && p == h.Address(a, i) && h' == Take(h1, t, a, i, request);
    OneElement(h.blocks[a].free, i);
    if h.blocks[a].free - {i} == {} { assert h.blocks[a].free == {i}; }
    forall t', c' ensures h'.Bin(t', c') == h1.Bin(t', c') {}
  }

  lemma {:induction false} TakenFromNew(h: Heap, m: Heap, h': Heap, t: nat, request: nat, c: int, p: nat)
    requires h.Inv() && AllocLocked(h, m, t, request, c) && AllocFinish(m, h', t, p)
    ensures FromNew(h, h', t, c, p)
  {
    hide Heap.Inv, ClassFor, BlockAddress, IsUpto, Binned, Take, AllocLocked;
    AllocLockedInv(h, m, t, request, c);
    FetchedIsNew(h, m, t, request, c);
    AllocLockedOut(h, m, t, request, c);
    FetchedBins(h, m, t, request, c);
    var a := m.task[t].a;
    BinnedElsewhere(m, t, a);
    var i :| Least(m.blocks[a].free, i) && p == m.Address(a, i) &&
      h' == Take(Binned(m, t, a), t, a, i, m.task[t].request).(task := m.task - {t}, busy := m.busy - {a});
    FirstBlock(m, t, i);
    FinishedBins(m, h', t, a, i);
  }

  lemma {:induction false} FetchedBins(h: Heap, m: Heap, t: nat, request: nat, c: int)
    requires AllocLocked(h, m, t, request, c)
    ensures m.bins == h.bins && (c != LARGE_CLASS_SIZE_INDEX ==> h.Bin(t, c) == [])
  {
    hide Allocated, ClassFor, IsUpto, PageCount;
  }

  lemma {:induction false} FirstBlock(m: Heap, t: nat, i: nat)
    requires m.Inv() && t in m.task && m.task[t].Fetched? && m.task[t].a in m.blocks &&
      Least(m.blocks[m.task[t].a].free, i)
    ensures i == 0
  {
    hide Pages.Ok, NoDup, Heap.LiveInv;
    assert t in m.task && m.SpanInv(m.task[t].a);
    assert 0 in m.blocks[m.task[t].a].free;
  }

  lemma {:induction false} FinishedBins(m: Heap, h': Heap, t: nat, a: nat, i: nat)
    requires a in m.blocks && t in m.task && m.task[t].Fetched?
    requires h' == Take(Binned(m, t, a), t, a, i, m.task[t].request).(task := m.task - {t}, busy := m.busy - {a})
    ensures m.Address(a, i) in h'.live && h'.live[m.Address(a, i)].a == a && h'.live[m.Address(a, i)].i == i
    ensures var c := m.blocks[a].cls;
      OtherBins(m, h', t, c) &&
      h'.Bin(t, c) == if c == LARGE_CLASS_SIZE_INDEX then m.Bin(t, c) else [a] + m.Bin(t, c)
  {
    hide BlockAddress;
    BinnedElsewhere(m, t, a);
    assert Binned(m, t, a).Address(a, i) == m.Address(a, i);
    forall t', c' ensures h'.Bin(t', c') == Binned(m, t, a).Bin(t', c') {}
  }

  /** A cmalloc takes a block of the first span in its bin, and of a new span if there is none. */
  lemma {:induction false} AllocRunFrom(h: Heap, h': Heap, t: nat, request: nat, c: int, p: nat)
    requires h.Inv() && AllocRun(h, h', t, request, c, p)
    ensures if c != LARGE_CLASS_SIZE_INDEX && h.Bin(t, c) != [] then FromBin(h, h', t, c, p)
      else FromNew(h, h', t, c, p)
  {
    hide Heap.Inv, FromBin, FromNew, AllocFinish;
    if AllocLocal(h, h', t, request, c, p) {
      TakenFromBin(h, h', t, request, c, p);
    } else {
      var m :| AllocLocked(h, m, t, request, c) && AllocFinish(m, h', t, p);
      TakenFromNew(h, m, h', t, request, c, p);
    }
  }

  /** Which block serves the request. For a large one it is a new span's; for a small one the bin of the first
      class whose blocks are large enough decides. */
  ghost predicate Served(h: Heap, h': Heap, t: nat, request: nat, p: nat) {
    (request > 32768 ==> FromNew(h, h', t, LARGE_CLASS_SIZE_INDEX, p)) &&
    forall i {:trigger SIZE_CLASSES[i]} ::
      0 <= i < |SIZE_CLASSES| && request <= SIZE_CLASSES[i] && (i == 0 || SIZE_CLASSES[i - 1] < request) ==>
        if h.Bin(t, i) == [] then FromNew(h, h', t, i, p) else FromBin(h, h', t, i, p)
  }

  lemma {:induction false} ClassIsFirst(request: nat, c: int)
    requires ClassFor(request, c)
    ensures request > 32768 ==> c == LARGE_CLASS_SIZE_INDEX
    ensures forall i {:trigger SIZE_CLASSES[i]} ::
      0 <= i < |SIZE_CLASSES| && request <= SIZE_CLASSES[i] && (i == 0 || SIZE_CLASSES[i - 1] < request) ==> i == c
  {
    ShippedTiered();
    ShippedSizes();
  }

  lemma {:induction false} AllocRunClass(h: Heap, h': Heap, t: nat, request: nat, c: int, p: nat)
    requires AllocRun(h, h', t, request, c, p)
    ensures ClassFor(request, c)
  {
    hide Allocated, ClassFor, IsUpto, PageCount, FetchSpan, AllocFinish, BlockAddress;
  }

  lemma {:induction false} AllocRunServes(h: Heap, h': Heap, t: nat, request: nat, c: int, p: nat)
    requires h.Inv() && AllocRun(h, h', t, request, c, p)
    ensures Served(h, h', t, request, p)
  {
    hide Heap.Inv, AllocRun, FromBin, FromNew, ClassFor, Heap.Bin;
    AllocRunClass(h, h', t, request, c, p);
    ClassIsFirst(request, c);
    AllocRunFrom(h, h', t, request, c, p);
  }

  /** An uninterrupted cfree of block p by thread t. */
  ghost predicate FreeRun(h: Heap, h': Heap, t: nat, p: nat) {
    (FreeLocal(h, h', t, p) && h'.task == h.task) ||
    exists m :: (FreeLocal(h, m, t, p) || FreeLarge(h, m, t, p)) && FreeLocked(m, h', t)
  }

  /** Block p is gone, and the other live blocks are where they were. */
  ghost predicate TakenBack(h: Heap, h': Heap, p: nat) {
    p in h.live && h'.live == h.live - {p} && h'.task == h.task && forall q :: q in h'.live ==> SameBlock(h, h', q)
  }

  lemma {:induction false} FreeLocalOut(h: Heap, m: Heap, t: nat, p: nat)
    requires h.Inv() && FreeLocal(h, m, t, p)
    ensures m.live == h.live - {p} && (m.task == h.task || m.task == h.task[t := Returning(h.live[p].a)]) &&
      t !in h.task
    ensures forall q :: q in m.live ==> SameBlock(h, m, q)
  {
    hide Pages.Ok, NoDup, BlockAddress, IsUpto, Heap.SpansInv, Heap.BinsInv, Heap.TasksInv, Rebinned;
    assert h.LiveAt(p);
    forall q | q in m.live ensures SameBlock(h, m, q) { assert h.LiveAt(q); }
  }

  lemma {:induction false} FreeLargeOut(h: Heap, m: Heap, t: nat, p: nat)
    requires h.Inv() && FreeLarge(h, m, t, p)
    ensures m.live == h.live - {p} && m.task == h.task[t := Returning(h.live[p].a)] && t !in h.task
    ensures forall q :: q in m.live ==> SameBlock(h, m, q)
  {
    hide Pages.Ok, NoDup, BlockAddress, IsUpto, Heap.SpansInv, Heap.BinsInv, Heap.TasksInv;
    forall q | q in m.live ensures SameBlock(h, m, q) { assert h.LiveAt(q); }
  }

  lemma {:induction false} FreeLockedOut(m: Heap, h': Heap, t: nat)
    requires m.Inv() && FreeLocked(m, h', t)
    ensures h'.live == m.live && h'.task == m.task - {t} && forall q :: q in h'.live ==> SameBlock(m, h', q)
  {
    hide Pages.Ok, NoDup, BlockAddress, IsUpto, Heap.SpansInv, Heap.BinsInv, Released;
    assert t in m.task;
    forall q | q in h'.live ensures SameBlock(m, h', q) { assert m.LiveAt(q); }
  }

  /** An operation that frees takes back that block and moves no other. */
  lemma {:induction false} FreeRunOut(h: Heap, h': Heap, t: nat, p: nat)
    requires h.Inv() && FreeRun(h, h', t, p)
    ensures h'.Inv() && TakenBack(h, h', p)
  {
    hide Heap.Inv, FreeLocal, FreeLarge, FreeLocked;
    if FreeLocal(h, h', t, p) && h'.task == h.task {
      LocalFreed(h, h', t, p);
      FreeLocalOut(h, h', t, p);
      WasLive(h, h', t, p);
    } else {
      var m :| (FreeLocal(h, m, t, p) || FreeLarge(h, m, t, p)) && FreeLocked(m, h', t);
      WasLive(h, m, t, p);
      if FreeLocal(h, m, t, p) {
        LocalFreed(h, m, t, p);
        FreeLocalOut(h, m, t, p);
      } else {
        LargeFreed(h, m, t, p);
        FreeLargeOut(h, m, t, p);
      }
      LockedFreed(m, h', t);
      FreeLockedOut(m, h', t);
      forall q | q in h'.live ensures SameBlock(h, h', q) { assert SameBlock(h, m, q) && SameBlock(m, h', q); }
      assert h'.task == h.task;
    }
  }

  /** What becomes of the bin of block p's class: a small span that was full joins at the head, and one that is
      all free leaves from wherever it is. Unless the block empties its span no page changes hands. */
  ghost predicate BinSettled(h: Heap, h': Heap, t: nat, p: nat) {
    p in h.live && h.live[p].a in h.blocks &&
    var a, b := h.live[p].a, h.blocks[h.live[p].a];
    var l, l' := h.Bin(t, b.cls), h'.Bin(t, b.cls);
    OtherBins(h, h', t, b.cls) &&
    if a !in h.owner then l' == l
    else if !h.Empties(p) then h'.pages == h.pages && l' == if b.free == {} then [a] + l else l
    else a in l && forall i :: 0 <= i < |l| && l[i] == a ==> l' == l[..i] + l[i + 1..]
  }

  lemma {:induction false} FreeRunBins(h: Heap, h': Heap, t: nat, p: nat)
    requires h.Inv() && FreeRun(h, h', t, p)
    ensures BinSettled(h, h', t, p)
  {
    hide Heap.Inv, FreeLocal, FreeLarge, FreeLocked, BinSettled;
    if FreeLocal(h, h', t, p) && h'.task == h.task {
      LocalSettled(h, h', t, p);
      SettledAlike(h, h', h', t, p);
    } else {
      var m :| (FreeLocal(h, m, t, p) || FreeLarge(h, m, t, p)) && FreeLocked(m, h', t);
      if FreeLocal(h, m, t, p) { LocalSettled(h, m, t, p); } else { LargeSettled(h, m, t, p); }
      LockedBins(m, h', t);
      SettledAlike(h, m, h', t, p);
    }
  }

  lemma {:induction false} LocalSettled(h: Heap, m: Heap, t: nat, p: nat)
    requires h.Inv() && FreeLocal(h, m, t, p)
    ensures BinSettled(h, m, t, p) && (t in m.task <==> h.Empties(p))
  {
    hide Pages.Ok, BlockAddress, IsUpto, Without, Heap.TasksInv, ClassSpan;
    assert h.LiveAt(p) && h.SpanInv(h.live[p].a);
    var a, c := h.live[p].a, h.blocks[h.live[p].a].cls;
    var l := h.Bin(t, c);
    if h.Empties(p) {
      assert h.blocks[a].free != {};
      forall i | 0 <= i < |l| && l[i] == a ensures Without(l, a) == l[..i] + l[i + 1..] { BinLinks.WithoutAt(l, a, i); }
    }
    forall t', c' ensures m.Bin(t', c') == (if t' == t && c' == c then Rebinned(h, t, a) else h.Bin(t', c')) {}
  }

  lemma {:induction false} LargeSettled(h: Heap, m: Heap, t: nat, p: nat)
    requires h.Inv() && FreeLarge(h, m, t, p)
    ensures BinSettled(h, m, t, p) && t in m.task && h.live[p].a !in h.owner
  {
    hide Heap.SpansInv, Heap.BinsInv, Heap.TasksInv, BlockAddress;
    assert h.LiveAt(p);
    forall t', c' ensures m.Bin(t', c') == h.Bin(t', c') {}
  }

  lemma {:induction false} LockedBins(m: Heap, h': Heap, t: nat)
    requires FreeLocked(m, h', t)
    ensures h'.bins == m.bins && t in m.task
  {
    hide Released;
  }

  /** Caching a span changes no bin. */
  lemma {:induction false} SettledAlike(h: Heap, m: Heap, h': Heap, t: nat, p: nat)
    requires BinSettled(h, m, t, p) && h'.bins == m.bins
    requires h'.pages == m.pages || h.Empties(p) || h.live[p].a !in h.owner
    ensures BinSettled(h, h', t, p)
  {
    forall t', c' ensures h'.Bin(t', c') == m.Bin(t', c') {}
  }

  lemma {:induction false} WasLive(h: Heap, m: Heap, t: nat, p: nat)
    requires FreeLocal(h, m, t, p) || FreeLarge(h, m, t, p)
    ensures p in h.live
  {}

  /** A deallocation leaves the other spans in use alone. */
  lemma {:induction false} FreeRunElsewhere(h: Heap, h': Heap, t: nat, p: nat)
    requires h.Inv() && FreeRun(h, h', t, p)
    ensures p in h.live && SameUsed(h.pages, h'.pages, {h.live[p].a})
    ensures forall b :: b in h.blocks && b != h.live[p].a ==> b in h'.blocks && h'.blocks[b] == h.blocks[b]
  {
    hide Heap.SpanInv, Heap.BinsInv, Heap.TasksInv, Heap.LiveInv, FreeLocal, FreeLarge, FreeLocked, SameUsed, Pages.Ok;
    if FreeLocal(h, h', t, p) && h'.task == h.task {
      FreeStarts(h, h', t, p);
      UsedAlike(h, {h.live[p].a});
    } else {
      var m :| (FreeLocal(h, m, t, p) || FreeLarge(h, m, t, p)) && FreeLocked(m, h', t);
      FreeStarts(h, m, t, p);
      FreeEnds(m, h', t);
    }
  }

  lemma {:induction false} FreeStarts(h: Heap, m: Heap, t: nat, p: nat)
    requires FreeLocal(h, m, t, p) || FreeLarge(h, m, t, p)
    ensures p in h.live && m.pages == h.pages && m.blocks.Keys == h.blocks.Keys
    ensures forall b :: b in h.blocks && b != h.live[p].a ==> m.blocks[b] == h.blocks[b]
    ensures t !in h.task && (t in m.task ==> m.task[t].a == h.live[p].a)
  {
    hide Rebinned, BlockAddress;
  }

  lemma {:induction false} FreeEnds(m: Heap, h': Heap, t: nat)
    requires FreeLocked(m, h', t)
    ensures t in m.task && m.task[t].Returning? && SameUsed(m.pages, h'.pages, {m.task[t].a})
    ensures forall b :: b in m.blocks && b != m.task[t].a ==> b in h'.blocks && h'.blocks[b] == m.blocks[b]
  {
    hide SameUsed, Pages.Ok;
  }

  /** Nobody is looking up a page of the span of live block p: none of its pages is watched. */
  ghost predicate Unread(h: Heap, watched: map<nat, Path>, p: nat) {
    p in h.live && forall k :: k in watched && k in h.pages.table ==> h.pages.table[k] != h.live[p].a
  }

  /** Thread t may free live block p: the block is large, or t has allocated it, and if it is the last
      one of its span then nobody is looking that span up. */
  ghost predicate Freeable(h: Heap, watched: map<nat, Path>, t: nat, p: nat) {
    p in h.live && (h.live[p].a in h.owner ==> h.live[p].thread == t) && (h.Empties(p) ==> Unread(h, watched, p))
  }

  /** Freeing a block of another span does not keep the thread from freeing this one. */
  lemma {:induction false} StillFreeable(h: Heap, h': Heap, t: nat, p: nat, r: nat, watched: map<nat, Path>)
    requires h.Inv() && h'.Inv() && FreeRun(h, h', t, p) && TakenBack(h, h', p)
    requires r in h'.live && SizeAt(h, p) != SizeAt(h, r) && Freeable(h, watched, t, r)
    ensures Freeable(h', watched, t, r)
  {
    hide Heap.BinsInv, Heap.TasksInv, Heap.LiveInv, Heap.SpanInv, FreeRun, Pages.SpansOk, Pages.ChunksOk, Pages.PoolOk,
      SameUsed;
    FreeRunElsewhere(h, h', t, p);
    assert SameBlock(h, h', r);
    if h'.Empties(r) {
      forall k | k in watched && k in h'.pages.table ensures h'.pages.table[k] != h.live[r].a {
        SpanPages(h.pages, h'.pages, h.live[p].a, h.live[r].a, k);
      }
    }
  }

  /** A span that stays in use has no page that it did not have. */
  lemma {:induction false} SpanPages(s: Pages, s': Pages, gone: nat, a: nat, k: nat)
    requires s.TableOk() && s'.TableOk() && SameUsed(s, s', {gone}) && a in s.Used() && a != gone
    ensures k in s'.table && s'.table[k] == a ==> k in s.table && s.table[k] == a
  {
    if k in s'.table && s'.table[k] == a {
      assert s'.Covers(a, k);
      assert s.Covers(a, k);
    }
  }

  // ---- bytes ----

  /** Every byte of every block live before and after is what it was. */
  ghost predicate BytesKept(h: Heap, h': Heap, bytes: map<nat, nat>, bytes': map<nat, nat>) {
    forall q, x {:trigger h.Inside(q, x)} ::
      h.Inside(q, x) && q in h'.live ==> x in bytes && x in bytes' && bytes'[x] == bytes[x]
  }

  lemma {:induction false} InsidePage(h: Heap, q: nat, x: nat)
    requires h.Inv() && h.Inside(q, x)
    ensures h.pages.pageSize > 0
    ensures var k := Quotient(x, h.pages.pageSize); k in h.pages.table && InPage(h.pages.pageSize, k, x)
  {
    hide Pages.SpansOk, Pages.ChunksOk, Pages.PoolOk, Heap.BinsInv, Heap.TasksInv;
    assert h.LiveAt(q);
    BlockPage(h, h.live[q].a, h.live[q].i, x);
    QuotientBounds(x, h.pages.pageSize);
  }

  /** Bytes of live blocks are there. */
  lemma {:induction false} InsideByte(h: Heap, q: nat, x: nat, m: State, pageMap: nat, bytes: map<nat, nat>)
    requires h.Inv() && h.Inside(q, x) && Sound(h.pages, m, pageMap, bytes)
    ensures x in bytes
  {
    hide Pages.Ok, Heap.Inv, Regions, WatchesUsed;
    InsidePage(h, q, x);
  }

  lemma {:induction false} AllocBytes(h: Heap, h': Heap, m: State, pageMap: nat, bytes: map<nat, nat>,
          bytes': map<nat, nat>)
    requires h.Inv() && Sound(h.pages, m, pageMap, bytes) &&
      BytesSame(h.pages.pageSize, h.pages.table.Keys, bytes, bytes')
    ensures BytesKept(h, h', bytes, bytes')
  {
    hide Pages.Ok, Heap.Inv, Sound, Heap.Inside;
    forall q, x | h.Inside(q, x) ensures x in bytes && x in bytes' && bytes'[x] == bytes[x] {
      InsidePage(h, q, x);
      InsideByte(h, q, x, m, pageMap, bytes);
    }
  }

  lemma {:induction false} FreeBytes(h: Heap, h': Heap, m: State, pageMap: nat, bytes: map<nat, nat>,
          bytes': map<nat, nat>)
    requires h.Inv() && h'.Inv() && Sound(h.pages, m, pageMap, bytes) &&
      BytesSame(h.pages.pageSize, h'.pages.table.Keys, bytes, bytes')
    requires h'.pages.pageSize == h.pages.pageSize && forall q :: q in h'.live ==> SameBlock(h, h', q)
    ensures BytesKept(h, h', bytes, bytes')
  {
    hide Pages.Ok, Heap.Inv, Sound;
    forall q, x | h.Inside(q, x) && q in h'.live ensures x in bytes && x in bytes' && bytes'[x] == bytes[x] {
      assert SameBlock(h, h', q);
      assert h'.Inside(q, x);
      InsidePage(h', q, x);
      InsideByte(h, q, x, m, pageMap, bytes);
    }
  }

  lemma {:induction false} BytesTwice(h: Heap, m: Heap, h': Heap, bytes: map<nat, nat>, bytes1: map<nat, nat>,
          bytes': map<nat, nat>)
    requires BytesKept(h, m, bytes, bytes1) && BytesKept(m, h', bytes1, bytes')
    requires forall q :: q in h.live && q in h'.live ==> SameBlock(h, m, q)
    ensures BytesKept(h, h', bytes, bytes')
  {
    forall q, x | h.Inside(q, x) && q in h'.live ensures x in bytes && x in bytes' && bytes'[x] == bytes[x] {
      assert SameBlock(h, m, q);
      assert m.Inside(q, x);
    }
  }

  lemma {:induction false} SameTasks(h: Heap, h': Heap, t: nat, request: nat, p: nat)
    requires HandedOut(h, h', t, request, p)
    ensures h'.task == h.task
  {}

  /** A block allocated and freed again leaves the other blocks and their bytes as they were. */
  lemma {:induction false} BackAgain(h: Heap, h1: Heap, h': Heap, t: nat, request: nat, p: nat, m: State, pageMap: nat,
          b: map<nat, nat>, m1: State, pageMap1: nat, b1: map<nat, nat>, b': map<nat, nat>)
    requires h.Inv() && h1.Inv() && h'.Inv() && HandedOut(h, h1, t, request, p) && TakenBack(h1, h', p)
    requires Sound(h.pages, m, pageMap, b) && Sound(h1.pages, m1, pageMap1, b1) &&
      h'.pages.pageSize == h1.pages.pageSize
    requires BytesSame(h.pages.pageSize, h.pages.table.Keys, b, b1) &&
      BytesSame(h1.pages.pageSize, h'.pages.table.Keys, b1, b')
    ensures h'.live == h.live && h'.task == h.task && BytesKept(h, h', b, b')
    ensures forall q :: q in h'.live ==> SameBlock(h, h', q)
  {
    hide Heap.Inv, Sound, BytesSame, BytesKept;
    AllocBytes(h, h1, m, pageMap, b, b1);
    FreeBytes(h1, h', m1, pageMap1, b1, b');
    BytesTwice(h, h1, h', b, b1, b');
    assert h'.live == h.live;
    forall q | q in h'.live ensures SameBlock(h, h', q) { assert SameBlock(h, h1, q) && SameBlock(h1, h', q); }
  }

  lemma {:induction false} AsBefore(h: Heap, m: State, pageMap: nat, b: map<nat, nat>, b1: map<nat, nat>,
          b': map<nat, nat>)
    requires h.Inv() && Sound(h.pages, m, pageMap, b)
    requires BytesSame(h.pages.pageSize, h.pages.table.Keys, b, b1) &&
      BytesSame(h.pages.pageSize, h.pages.table.Keys, b1, b')
    ensures BytesKept(h, h, b, b') && forall q :: q in h.live ==> SameBlock(h, h, q)
  {
    hide Pages.Ok, Sound, Heap.SpansInv, Heap.BinsInv, Heap.TasksInv, BytesKept;
    forall q | q in h.live ensures SameBlock(h, h, q) { assert h.LiveAt(q); }
    BytesSameTwice(h.pages.pageSize, h.pages.table.Keys, b, b1, b');
    AllocBytes(h, h, m, pageMap, b, b');
  }

  lemma {:induction false} BytesSameTwice(size: nat, pages: set<nat>, b: map<nat, nat>, b1: map<nat, nat>,
          b': map<nat, nat>)
    requires BytesSame(size, pages, b, b1) && BytesSame(size, pages, b1, b')
    ensures BytesSame(size, pages, b, b')
  {}

  lemma {:induction false} BytesAlike(h: Heap, h': Heap, m: State, pageMap: nat, bytes: map<nat, nat>)
    requires h.Inv() && Sound(h.pages, m, pageMap, bytes)
    ensures BytesKept(h, h', bytes, bytes)
  {
    hide Pages.Ok, Heap.Inv, Sound, Heap.Inside;
    forall q, x | h.Inside(q, x) ensures x in bytes { InsideByte(h, q, x, m, pageMap, bytes); }
  }

  ghost function SizeAt(h: Heap, p: nat): nat {
    if p in h.live && h.live[p].a in h.blocks then h.blocks[h.live[p].a].size else 0
  }

  /** The bytes of these pages have not changed, those from ptr on up to ptr + n apart. */
  ghost predicate SameBut(size: nat, pages: set<nat>, bytes: map<nat, nat>, bytes': map<nat, nat>, ptr: nat, n: nat) {
    forall k: nat, x: nat {:trigger InPage(size, k, x)} ::
      k in pages && InPage(size, k, x) && x in bytes && !(ptr <= x < ptr + n) ==>
      x in bytes' && bytes'[x] == bytes[x]
  }

  /** A live block is not at NULL, holds what was asked for, and its bytes are there. */
  lemma {:induction false} LiveThere(h: Heap, p: nat, m: State, pageMap: nat, bytes: map<nat, nat>)
    requires h.Inv() && p in h.live && Sound(h.pages, m, pageMap, bytes)
    ensures p != 0 && h.live[p].a in h.blocks && h.live[p].request <= SizeAt(h, p) && 0 < SizeAt(h, p)
    ensures forall x :: p <= x < p + SizeAt(h, p) ==> h.Inside(p, x) && x in bytes
  {
    hide Pages.TableOk, Pages.ChunksOk, Pages.PoolOk, Regions, BytesOk, WatchesUsed, Heap.BinsInv, Heap.TasksInv;
    assert h.LiveAt(p);
    var a := h.live[p].a;
    assert h.SpanInv(a) && h.pages.SpanOk(a);
    TimesPositive(h.pages.page[a], h.pages.pageSize);
    forall x | p <= x < p + SizeAt(h, p)
      ensures h.Inside(p, x) && x in bytes
    {
      InsideByte(h, p, x, m, pageMap, bytes);
    }
  }

  /** Every byte of every block that was live, that at `but` apart, is what it was. */
  ghost predicate KeptBut(h: Heap, bytes: map<nat, nat>, bytes': map<nat, nat>, but: nat) {
    forall q, x {:trigger h.Inside(q, x)} ::
      h.Inside(q, x) && q != but ==> x in bytes && x in bytes' && bytes'[x] == bytes[x]
  }

  /** Spans in use stay where they are while another is allocated. */
  lemma {:induction false} AllocRunPages(h: Heap, h': Heap, t: nat, request: nat, c: int, p: nat)
    requires h.Inv() && AllocRun(h, h', t, request, c, p)
    ensures SameUsed(h.pages, h'.pages, {}) && h'.pages.pageSize == h.pages.pageSize
  {
    hide Heap.SpansInv, Heap.BinsInv, Heap.TasksInv, Heap.LiveInv, AllocLocal, AllocLocked, AllocFinish, SameUsed;
    if AllocLocal(h, h', t, request, c, p) {
      AllocLocalKeeps(h, h', t, request, c, p);
      UsedAlike(h, {});
    } else {
      var m :| AllocLocked(h, m, t, request, c) && AllocFinish(m, h', t, p);
      AllocLockedPages(h, m, t, request, c);
      AllocLockedInv(h, m, t, request, c);
      AllocFinishKeeps(m, h', t, p);
    }
  }

  lemma {:induction false} UsedAlike(h: Heap, except: set<nat>)
    requires h.SpansInv()
    ensures SameUsed(h.pages, h.pages, except)
  {}

  lemma {:induction false} AllocLockedPages(h: Heap, m: Heap, t: nat, request: nat, c: int)
    requires AllocLocked(h, m, t, request, c)
    ensures SameUsed(h.pages, m.pages, {}) && m.pages.pageSize == h.pages.pageSize
  {
    hide Pages.Ok, SameUsed, PageCount, ClassFor, IsUpto, FetchSpan;
    var a, free :| Allocated(h.pages, m.pages, a, PageCount(SpanBytes(c, request), h.pages.pageSize)) &&
      IsUpto(free, BlocksIn(c)) &&
      m == FetchSpan(h, m.pages, t, request, c, a, free);
  }

  /** While another block is allocated no block becomes the last one of its span. */
  lemma {:induction false} EmptiesBefore(h: Heap, h': Heap, t: nat, request: nat, c: int, r: nat, p: nat)
    requires h.Inv() && AllocRun(h, h', t, request, c, r) && p in h.live && h'.Empties(p)
    ensures h.Empties(p)
  {
    hide Pages.Ok, NoDup, BlockAddress, IsUpto, Heap.BinsInv, Heap.TasksInv, AllocRun;
    AllocRunOut(h, h', t, request, c, r);
    assert SameBlock(h, h', p) && h.LiveAt(p) && h.SpanInv(h.live[p].a);
    AllocRunFree(h, h', t, request, c, r, h.live[p].a);
    MoreFree(h'.blocks[h.live[p].a].free, h.blocks[h.live[p].a].free, h.live[p].i, h.blocks[h.live[p].a].count);
  }

  lemma {:induction false} MoreFree(small: set<nat>, free: set<nat>, i: nat, n: nat)
    requires small <= free && i < n && i !in free && forall j :: j in free ==> j < n
    ensures |small| + 1 == n ==> |free| + 1 == n
  {
    FullSet(free, n);
    assert !IsUpto(free, n);
    assert free == small + (free - small);
  }

  /** An allocation takes blocks of the spans in use, and gives none. */
  lemma {:induction false} AllocRunFree(h: Heap, h': Heap, t: nat, request: nat, c: int, r: nat, a: nat)
    requires h.Inv() && AllocRun(h, h', t, request, c, r) && a in h.blocks
    ensures a in h'.blocks && h'.blocks[a].free <= h.blocks[a].free && h'.blocks[a].count == h.blocks[a].count
  {
    hide Heap.Inv, AllocLocal, AllocLocked, AllocFinish;
    if AllocLocal(h, h', t, request, c, r) {
      LocalFree(h, h', t, request, c, r, a);
    } else {
      var m :| AllocLocked(h, m, t, request, c) && AllocFinish(m, h', t, r);
      AllocLockedKeeps(h, m, t, request, c);
      FinishFewer(m, h', t, r, a);
    }
  }

  lemma {:induction false} LocalFree(h: Heap, h': Heap, t: nat, request: nat, c: int, r: nat, a: nat)
    requires AllocLocal(h, h', t, request, c, r) && a in h.blocks
    ensures a in h'.blocks && h'.blocks[a].free <= h.blocks[a].free && h'.blocks[a].count == h.blocks[a].count
  {
    hide NoDup, BlockAddress, Without, Least, ClassFor;
  }

  lemma {:induction false} FinishFewer(m: Heap, h': Heap, t: nat, r: nat, a: nat)
    requires AllocFinish(m, h', t, r) && a in m.blocks
    ensures a in h'.blocks && h'.blocks[a].free <= m.blocks[a].free && h'.blocks[a].count == m.blocks[a].count
  {
    hide NoDup, BlockAddress, Binned, Least;
    BinnedElsewhere(m, t, m.task[t].a);
  }

  /** A new block is alone in its span only if the span is new, too. */
  lemma {:induction false} AloneIsNew(h: Heap, h': Heap, t: nat, request: nat, c: int, p: nat)
    requires h.Inv() && AllocRun(h, h', t, request, c, p) && h'.Empties(p)
    ensures h'.live[p].a !in h.blocks
  {
    hide Heap.Inv, AllocLocal, AllocLocked, AllocFinish;
    if AllocLocal(h, h', t, request, c, p) {
      NotAlone(h, h', t, request, c, p);
    } else {
      var m :| AllocLocked(h, m, t, request, c) && AllocFinish(m, h', t, p);
      FetchedIsNew(h, m, t, request, c);
      FinishedAt(m, h', t, p);
    }
  }

  lemma {:induction false} NotAlone(h: Heap, h': Heap, t: nat, request: nat, c: int, p: nat)
    requires h.Inv() && AllocLocal(h, h', t, request, c, p)
    ensures !h'.Empties(p)
  {
    hide Pages.Ok, NoDup, BlockAddress, IsUpto, Heap.SpansInv, Heap.BinsInv, Heap.TasksInv, Heap.LiveInv, Without,
      ClassFor;
    var a := h.Bin(t, c)[0];
    HeadIn(h.Bin(t, c));
    BinHasBlock(h, t, c, a);
    var i :| Least(h.blocks[a].free, i) && p == h.Address(a, i) &&
      h' == Take(if |h.blocks[a].free| == 1 then h.WithBin(t, c, Without(h.Bin(t, c), a)) else h, t, a, i, request);
    assert h.blocks[a].free == (h.blocks[a].free - {i}) + {i};
  }

  lemma {:induction false} FetchedIsNew(h: Heap, m: Heap, t: nat, request: nat, c: int)
    requires h.Inv() && AllocLocked(h, m, t, request, c)
    ensures t in m.task && m.task[t].a !in h.blocks
  {
    hide Pages.Ok, NoDup, IsUpto, Heap.SpanInv, Heap.BinsInv, Heap.TasksInv, Heap.LiveInv, ClassFor, PageCount,
      Allocated;
    var a, free :| Allocated(h.pages, m.pages, a, PageCount(SpanBytes(c, request), h.pages.pageSize)) &&
      IsUpto(free, BlocksIn(c)) &&
      m == FetchSpan(h, m.pages, t, request, c, a, free);
    AllocatedFacts(h.pages, m.pages, a, PageCount(SpanBytes(c, request), h.pages.pageSize));
  }

  lemma {:induction false} FinishedAt(m: Heap, h': Heap, t: nat, p: nat)
    requires AllocFinish(m, h', t, p)
    ensures p in h'.live && h'.live[p].a == m.task[t].a
  {
    hide Binned, Least, BlockAddress;
    BinnedElsewhere(m, t, m.task[t].a);
  }

  /** Nobody looks up a span that has just come into use. */
  lemma {:induction false} UnreadNew(h: Heap, h': Heap, m: State, m': State, pageMap: nat, bytes: map<nat, nat>, a: nat)
    requires h.SpansInv() && h'.SpansInv() && Sound(h.pages, m, pageMap, bytes) && SameUsed(h.pages, h'.pages, {}) &&
      WatchKept(m, m')
    requires a !in h.blocks
    ensures forall k :: k in m'.watched && k in h'.pages.table ==> h'.pages.table[k] != a
  {
    hide Pages.SpansOk, Pages.TableOk, Pages.ChunksOk, Pages.PoolOk, Regions, BytesOk, Pages.Used;
    forall k | k in m'.watched && k in h'.pages.table
      ensures h'.pages.table[k] != a
    {
      UsedPagesStay(h.pages, h'.pages, {}, k);
    }
  }

  /** Nobody who was not looking up span a begins to because another span is allocated. */
  lemma {:induction false} UnreadStays(h: Heap, h': Heap, m: State, m': State, pageMap: nat, bytes: map<nat, nat>,
          a: nat)
    requires h'.Inv() && Sound(h.pages, m, pageMap, bytes) && SameUsed(h.pages, h'.pages, {}) && WatchKept(m, m')
    requires forall k :: k in m.watched && k in h.pages.table ==> h.pages.table[k] != a
    ensures forall k :: k in m'.watched && k in h'.pages.table ==> h'.pages.table[k] != a
  {
    hide Pages.SpansOk, Pages.TableOk, Pages.ChunksOk, Pages.PoolOk, Regions, BytesOk, Heap.BinsInv, Heap.TasksInv,
      Heap.LiveInv, Pages.Used;
    forall k | k in m'.watched && k in h'.pages.table
      ensures h'.pages.table[k] != a
    {
      UsedPagesStay(h.pages, h'.pages, {}, k);
    }
  }

  /** Block p has moved to r: r is new and thread t's, and p is gone. */
  ghost predicate Moved(h: Heap, h': Heap, t: nat, p: nat, r: nat, request: nat) {
    p in h.live && r !in h.live && r in h'.live && h'.live == h.live[r := h'.live[r]] - {p} &&
    h'.live[r].request == request &&
    h'.live[r].thread == t && h'.task == h.task && forall q :: q in h.live && q != p ==> SameBlock(h, h', q)
  }

  /** The move is one allocation, then one deallocation. */
  ghost predicate MovedBy(h: Heap, h': Heap, t: nat, p: nat, r: nat, request: nat) {
    exists m {:trigger FreeRun(m, h', t, p)} ::
      HandedOut(h, m, t, request, r) && Served(h, m, t, request, r) && FreeRun(m, h', t, p) && BinSettled(m, h', t, p)
  }

  lemma {:induction false} IsMovedBy(h: Heap, m: Heap, h': Heap, t: nat, p: nat, r: nat, request: nat)
    requires HandedOut(h, m, t, request, r) && Served(h, m, t, request, r) && FreeRun(m, h', t, p) &&
      BinSettled(m, h', t, p)
    ensures MovedBy(h, h', t, p, r, request)
  {
    hide HandedOut, Served, FreeRun, BinSettled;
  }

  lemma {:induction false} MovedTo(h: Heap, h1: Heap, h': Heap, t: nat, p: nat, r: nat, request: nat)
    requires p in h.live && HandedOut(h, h1, t, request, r) && TakenBack(h1, h', p)
    ensures Moved(h, h', t, p, r, request) && SameBlock(h1, h', r)
  {
    forall q | q in h.live && q != p ensures SameBlock(h, h', q) { assert SameBlock(h, h1, q) && SameBlock(h1, h', q); }
  }

  /** The n bytes from r on in b' are those from p on in b. */
  ghost predicate Prefix(b: map<nat, nat>, p: nat, b': map<nat, nat>, r: nat, n: nat) {
    forall x: nat {:trigger x in b'} :: r <= x < r + n ==> x in b' && b'[x] == At(b, p + (x - r))
  }

  /** The bytes of a move: what was at p is at r, and no other block has changed. */
  lemma {:induction false} MovedBytes(h: Heap, h1: Heap, h': Heap, t: nat, p: nat, r: nat, n: nat, b: map<nat, nat>,
          b1: map<nat, nat>, b2: map<nat, nat>, b': map<nat, nat>, request: nat)
    requires h.Inv() && h1.Inv() && HandedOut(h, h1, t, request, r) && TakenBack(h1, h', p) && p in h.live &&
      n == SizeAt(h, p) && n <= SizeAt(h1, r)
    requires BytesKept(h, h1, b, b1) && BytesKept(h1, h', b2, b')
    requires b2.Keys == b1.Keys && forall x :: x in b1 && !(r <= x < r + n) ==> b2[x] == b1[x]
    requires Prefix(b1, p, b2, r, n)
    ensures KeptBut(h, b, b', p) && Prefix(b, p, b', r, n)
  {
    hide Heap.Inv;
    assert SameBlock(h, h1, p) && SameBlock(h1, h', r);
    forall q: nat, x: nat | h.Inside(q, x) && q != p ensures x in b && x in b' && b'[x] == b[x] {
      assert SameBlock(h, h1, q) && SameBlock(h1, h', q);
      assert h1.Inside(q, x);
      if r <= x < r + n {
        assert h1.Inside(r, x);
        LiveDisjoint(h1, q, r, x);
      }
    }
    forall x: nat | r <= x < r + n ensures x in b' && b'[x] == At(b, p + (x - r)) {
      assert h.Inside(p, p + (x - r)) && h1.Inside(r, x);
      assert x in b2;
    }
  }

  /** The division test catches exactly the products beyond the limit. */
  lemma {:induction false} Overflow(num: nat, size: nat, limit: nat)
    ensures num != 0 && size > limit / num <==> Times(num, size) > limit
    ensures Times(num, size) == num * size
  {
    TimesIsProduct(num, size);
    if num != 0 {
      var q, r := limit / num, limit % num;
      assert limit == q * num + r;
      if size > q {
        var d := size - q - 1;
        assert num * size == q * num + num + num * d;
        assert num * d >= 0;
      } else {
        var d := q - size;
        assert num * size == q * num - num * d;
        assert num * d >= 0;
      }
    }
  }

  /** Two live blocks lie one after the other. */
  lemma {:induction false} BlocksSeparate(h: Heap, p: nat, q: nat)
    requires h.Inv() && p in h.live && q in h.live && p != q && 0 < SizeAt(h, p) && 0 < SizeAt(h, q)
    ensures p + SizeAt(h, p) <= q || q + SizeAt(h, q) <= p
  {
    hide Heap.Inv;
    var x := if p < q then q else p;
    if x < p + SizeAt(h, p) && x < q + SizeAt(h, q) {
      LiveDisjoint(h, p, q, x);
      assert false;
    }
  }

  lemma {:induction false} BlocksKept(h: Heap, h': Heap, b: map<nat, nat>, b': map<nat, nat>, but: nat)
    requires BytesKept(h, h', b, b') && forall q :: q in h.live && q != but ==> q in h'.live
    ensures KeptBut(h, b, b', but)
  {
    hide Heap.Inside;
    forall q: nat, x: nat | h.Inside(q, x) && q != but
      ensures x in b && x in b' && b'[x] == b[x]
    {
      InsideLive(h, q, x);
    }
  }

  lemma {:induction false} InsideLive(h: Heap, q: nat, x: nat)
    requires h.Inside(q, x)
    ensures q in h.live
  {}
}
