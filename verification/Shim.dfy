/** bench/shim/alloc_shim.c:36-80: over-aligned allocation without a header, on top of the allocator. */
module Shim {
  import opened Linear
  import opened Words
  import opened MetadataState
  import opened Spans
  import opened PageState
  import opened PageSteps
  import opened PageHeaps
  import opened HeapState
  import opened HeapRuns
  import opened Heaps

  /** cm_usable of an address x in a span, by the span's base and block size. */
  function Usable(base: nat, blockSize: nat, x: nat): int
    requires blockSize > 0 && base <= x
  {
    var start := base + Times(Quotient(x - base, blockSize), blockSize);
    blockSize - (x - start)
  }

  /** What cm_usable computes is the distance to the end of the block. */
  lemma {:induction false} UsableIsRest(base: nat, blockSize: nat, i: nat, x: nat)
    requires blockSize > 0 && InBlock(base, i, blockSize, x)
    ensures base <= x && Usable(base, blockSize, x) == BlockAddress(base, i, blockSize) + blockSize - x
  {
    BlockOfAddress(base, x, blockSize, i);
  }

  /** (x + 2^k - 1) & ~(2^k - 1) is the least multiple of 2^k at or above x. */
  lemma {:induction false} AlignedUp(x: nat, k: nat)
    ensures var a := Pow2(k); var y := AndNot(x + (a - 1), a - 1);
      y % a == 0 && x <= y < x + a && forall z: nat :: x <= z && z % a == 0 ==> y <= z
  {
    var a := Pow2(k);
    var w := x + (a - 1);
    AndNotMask(w, k);
    RoundedDown(w, a);
    forall z: nat | x <= z && z % a == 0 ensures w - w % a <= z { MultiplesApart(w - w % a, z, a); }
  }

  lemma {:induction false} RoundedDown(w: nat, a: nat)
    requires a > 0
    ensures var y := w - w % a; 0 <= y <= w < y + a && y % a == 0
  {
    DivMod(w, a);
    ModUnique(w - w % a, a, w / a, 0);
  }

  /** Of two multiples of a, one is not above the other or at least a above it. */
  lemma {:induction false} MultiplesApart(y: nat, z: nat, a: nat)
    requires a > 0 && y % a == 0 && z % a == 0
    ensures y <= z || z + a <= y
  {
    DivMod(y, a);
    DivMod(z, a);
    if z / a < y / a { MulGap(y / a, z / a, a); }
    if y / a < z / a { MulGap(z / a, y / a, a); }
  }

  /** Addresses are 16-aligned, which small powers of two divide. */
  lemma {:induction false} SmallAlignment(p: nat, k: nat)
    requires p % 16 == 0 && Pow2(k) <= 16
    ensures p % Pow2(k) == 0
  {
    SmallPower(k);
    var a, b, q := Pow2(k), Pow2(4 - k), p / 16;
    Pow2Add(4 - k, k);
    assert Pow2(4) == 16;
    Regroup(q, b, a);
    ModUnique(p, a, q * b, 0);
  }

  lemma {:induction false} Regroup(q: nat, b: nat, a: nat)
    ensures q * (b * a) == q * b * a
  {}

  lemma {:induction false} SmallPower(k: nat)
    requires Pow2(k) <= 16
    ensures k <= 4
  {
    assert Pow2(4) == 16;
    Pow2Add(4, 1);
    if k > 4 { Pow2Mono(5, k); }
  }

  /** bench/shim/alloc_shim.c:66-80. The result lies in the new block p, aligned, with size bytes after it. */
  method Memalign(rt: Runtime, t: nat, alignment: Word, size: Word, ghost k: nat)
      returns (ok: bool, ptr: nat, ghost p: nat)
    requires rt.Valid() && t !in rt.now.task && alignment == Pow2(k) && 0 < size
    requires size + alignment <= MAX_WORD ==> size + alignment + rt.pageHeap.pageSize <= WORD_LIMIT
    requires alignment <= 16 ==> size + rt.pageHeap.pageSize <= WORD_LIMIT
    modifies rt`now, rt`links, rt`threadLocalBin, rt.pageHeap, rt.pageHeap.meta, rt.pageHeap.repr
    ensures ok ==> rt.Valid() && (ptr == 0 <==> alignment > 16 && size > MAX_WORD - alignment)
    ensures ok && ptr == 0 ==> rt.now == old(rt.now)
    ensures ok && ptr != 0 ==>
      HandedOut(old(rt.now), rt.now, t, if alignment <= 16 then size else size + alignment - 1, p)
    ensures ok && ptr != 0 ==>
      Served(old(rt.now), rt.now, t, if alignment <= 16 then size else size + alignment - 1, p)
    ensures ok && ptr != 0 ==> ptr % alignment == 0 && rt.now.Inside(p, ptr) && ptr + size <= p + SizeAt(rt.now, p)
    ensures ok && ptr != 0 ==> p <= ptr < p + alignment && (alignment <= 16 ==> ptr == p)
    ensures ok && ptr != 0 ==> rt.MayFree(t, p)
    ensures ok ==>
      WatchKept(old(rt.pageHeap.meta.Now()), rt.pageHeap.meta.Now()) && fresh(rt.pageHeap.repr - old(rt.pageHeap.repr))
    ensures ok ==>
      BytesSame(rt.pageHeap.pageSize, old(rt.now.pages.table.Keys), old(rt.pageHeap.bytes), rt.pageHeap.bytes)
  {
    hide Runtime.Valid, HandedOut, AllocRun, WatchKept, BytesSame, Heap.Inv, Freeable, Served;
    WatchSame(rt.pageHeap.meta.Now());
    BytesUnchanged(rt.pageHeap.pageSize, rt.now.pages.table.Keys, rt.pageHeap.bytes);
    if alignment <= 16 {
      ok, ptr := rt.Cmalloc(t, size);
      p := ptr;
      if ok { Placed(rt, old(rt.now), t, size, p, size, ptr, k); }
      return;
    }
    if size > MAX_WORD - alignment {
      return true, 0, 0;
    }
    var raw;
    ok, raw := rt.Cmalloc(t, size + alignment - 1);
    p := raw;
    if !ok { return ok, 0, p; }
    AlignedUp(raw, k);
    ptr := AndNot(raw + (alignment - 1), alignment - 1);
    Placed(rt, old(rt.now), t, size + alignment - 1, p, size, ptr, k);
  }

  /** An over-aligned block freed by the pointer memalign returned: cfree finds the block that pointer
      lies in, and afterwards the same blocks are live, with the same bytes, as if nothing had happened. */
  method MemalignThenFree(rt: Runtime, t: nat, alignment: Word, size: Word, ghost k: nat) returns (ok: bool)
    requires rt.Valid() && t !in rt.now.task && alignment == Pow2(k) && 0 < size
    requires size + alignment <= MAX_WORD ==> size + alignment + rt.pageHeap.pageSize <= WORD_LIMIT
    requires alignment <= 16 ==> size + rt.pageHeap.pageSize <= WORD_LIMIT
    modifies rt`now, rt`links, rt`threadLocalBin, rt.pageHeap, rt.pageHeap.meta, rt.pageHeap.repr
    ensures ok ==> rt.Valid() && rt.now.live == old(rt.now.live) && rt.now.task == old(rt.now.task)
    ensures ok ==> forall q :: q in rt.now.live ==> SameBlock(old(rt.now), rt.now, q)
    ensures ok ==> BytesKept(old(rt.now), rt.now, old(rt.pageHeap.bytes), rt.pageHeap.bytes)
  {
    hide PageHeap.Valid, Runtime.BlocksShown, Runtime.LinksShown, BinsLinked, TableFilled, Sound, State.Ok;
    hide AllocRun, FreeRun, WatchKept, BytesSame, Heap.Inv, Freeable, SameBlock, BytesKept, HandedOut, TakenBack,
      Served, BinSettled, SpanReturned;
    ghost var h, m, pm, b := rt.now, rt.pageHeap.meta.Now(), rt.pageHeap.pageMap, rt.pageHeap.bytes;
    rt.pageHeap.IsSound();
    rt.pageHeap.Ties();
    var ptr;
    ghost var p;
    ok, ptr, p := Memalign(rt, t, alignment, size, k);
    if !ok { return; }
    ghost var h1, m1, pm1, b1 := rt.now, rt.pageHeap.meta.Now(), rt.pageHeap.pageMap, rt.pageHeap.bytes;
    rt.pageHeap.IsSound();
    rt.pageHeap.Ties();
    ghost var request := if alignment <= 16 then size else size + alignment - 1;
    if ptr != 0 { SameTasks(h, h1, t, request, p); }
    ok := rt.Cfree(t, ptr, p);
    if !ok { return; }
    rt.pageHeap.Ties();
    if ptr == 0 {
      AsBefore(h, m, pm, b, b1, rt.pageHeap.bytes);
    } else {
      BackAgain(h, h1, rt.now, t, request, p, m, pm, b, m1, pm1, b1, rt.pageHeap.bytes);
    }
  }

  /** An address with size bytes after it that still lie within the request is inside the block. */
  lemma {:induction false} Placed(rt: Runtime, h: Heap, t: nat, request: nat, p: nat, size: nat, ptr: nat, k: nat)
    requires rt.Valid() && HandedOut(h, rt.now, t, request, p) && 0 < size && p <= ptr && ptr + size <= p + request
    ensures ptr != 0 && rt.now.Inside(p, ptr) && ptr + size <= p + SizeAt(rt.now, p)
    ensures Pow2(k) <= 16 ==> p % Pow2(k) == 0
  {
    hide Heap.Inv, Sound, State.Ok;
    rt.NewBlock(h, t, request, p);
    LiveSafe(rt.now, p, p);
    if Pow2(k) <= 16 { SmallAlignment(p, k); }
  }

  /** bench/shim/alloc_shim.c:42-55, for NULL and for addresses inside live blocks. */
  method CmUsable(rt: Runtime, ptr: nat, ghost p: nat) returns (n: nat)
    requires rt.Valid() && (ptr != 0 ==> rt.now.Inside(p, ptr))
    ensures n == if ptr == 0 then 0 else p + SizeAt(rt.now, p) - ptr
  {
    hide PageHeap.Valid, Heap.Inv, BinsLinked, TableFilled, Span.Shows, InBlock, Usable;
    if ptr == 0 {
      return 0;
    }
    var a := rt.FindSpan(ptr, p);
    rt.pageHeap.Ties();
    rt.RecordSays(a);
    BlockHere(rt.now, p, ptr);
    UsableIsRest(rt.now.pages.spans[a].base, rt.now.blocks[a].size, rt.now.live[p].i, ptr);
    n := Usable(rt.pageHeap.spans[a].base, rt.pageHeap.rec[a].blockSize, ptr);
  }

  lemma {:induction false} BlockHere(h: Heap, p: nat, x: nat)
    requires h.Inv() && h.Inside(p, x)
    ensures var a, i := h.live[p].a, h.live[p].i;
      a in h.pages.spans && a in h.blocks && 0 < h.blocks[a].size &&
      InBlock(h.pages.spans[a].base, i, h.blocks[a].size, x) &&
      p == BlockAddress(h.pages.spans[a].base, i, h.blocks[a].size) && SizeAt(h, p) == h.blocks[a].size
  {
    hide Pages.Ok, NoDup;
    assert h.LiveAt(p);
    assert h.SpanInv(h.live[p].a);
  }
}
