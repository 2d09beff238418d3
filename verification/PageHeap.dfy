/** src/span.c: the page heap. Span and chunk records live in metadata memory; pointers to them are
    their addresses there. */
module PageHeaps {
  import opened Linear
  import opened Words
  import opened RangeMapSpec
  import opened MetadataState
  import opened MetadataArena
  import opened Spans
  import opened PageState
  import opened PageSteps
  import opened SizeClasses

  const FREE_BITMAP_WORDS: nat := 129
  const NO_FITTING_PAGE_SEQUENCE: nat := 0xFFFF_FFFF_FFFF_FFFF

  datatype DataChunk = DataChunk(base: nat, prev: nat)

  /** Each record's object knows its address, and is one of the given ones. */
  ghost predicate RecordsAt(rec: map<nat, Span>, repr: set<Span>) {
    forall a :: a in rec ==> rec[a].address == a && rec[a] in repr
  }

  /** These spans' records say that the spans are not initialised. */
  ghost predicate AllIdle(rec: map<nat, Span>, repr: set<Span>, cached: set<nat>)
    reads repr`isInitialized
  {
    forall a :: a in cached ==> a in rec && rec[a] in repr && !rec[a].isInitialized
  }

  lemma {:induction false} IdleWithRecord(rec: map<nat, Span>, repr: set<Span>, cached: set<nat>, a: nat, span: Span)
    requires AllIdle(rec, repr, cached) && a !in rec
    ensures AllIdle(rec[a := span], repr + {span}, cached)
  {}

  lemma {:induction false} IdleWithoutRecord(rec: map<nat, Span>, repr: set<Span>, cached: set<nat>, a: nat)
    requires AllIdle(rec, repr, cached) && a !in cached
    ensures AllIdle(rec - {a}, repr, cached)
  {}

  lemma {:induction false} IdleMore(rec: map<nat, Span>, repr: set<Span>, cached: set<nat>, a: nat)
    requires AllIdle(rec, repr, cached) && a in rec && rec[a] in repr && !rec[a].isInitialized
    ensures AllIdle(rec, repr, cached + {a})
  {}

  lemma {:induction false} IdleLess(rec: map<nat, Span>, repr: set<Span>, cached: set<nat>, a: nat)
    requires AllIdle(rec, repr, cached)
    ensures AllIdle(rec, repr, cached - {a})
  {}

  /** The record of another span does not matter. */
  lemma {:induction false} IdleBut(rec: map<nat, Span>, repr: set<Span>, cached: set<nat>, span: Span)
    requires AllIdle(rec, repr, cached) && RecordsAt(rec, repr) && span.address !in cached
    ensures AllIdle(rec, repr - {span}, cached)
  {}

  lemma {:induction false} IdleAll(rec: map<nat, Span>, repr: set<Span>, cached: set<nat>, span: Span)
    requires AllIdle(rec, repr - {span}, cached)
    ensures AllIdle(rec, repr, cached)
  {}

  lemma {:induction false} RecordAdded(rec: map<nat, Span>, repr: set<Span>, a: nat, span: Span)
    requires RecordsAt(rec, repr) && span.address == a && a !in rec
    ensures RecordsAt(rec[a := span], repr + {span}) && Extends(rec, rec[a := span])
  {}

  lemma {:induction false} RecordIn(rec: map<nat, Span>, repr: set<Span>, a: nat)
    requires RecordsAt(rec, repr) && a in rec
    ensures rec[a] in repr
  {}

  lemma {:induction false} RecordGone(rec: map<nat, Span>, repr: set<Span>, a: nat)
    requires RecordsAt(rec, repr)
    ensures RecordsAt(rec - {a}, repr) && Extends(rec - {a}, rec)
  {}

  class PageHeap {
    const pageShift: nat
    const pageSize: nat
    const meta: Metadata

    var pageMap: nat
    var dataArena: nat
    // uninitilized_span_bin and non_empty_bitmap, of fixed length
    var heads: seq<nat>
    var nonEmpty: seq<Word>

    // the records, by address: the page part of span_t, its block part, and data_chunk_t
    var spans: map<nat, Phys>
    var rec: map<nat, Span>
    var chunkRec: map<nat, DataChunk>

    // user memory, byte by byte
    var bytes: map<nat, nat>

    // the page heap as a value, and the objects of all span records so far
    ghost var now: Pages
    ghost var repr: set<Span>

    /** The value is the one the fields hold, and the two parts of each record go together. */
    ghost predicate Shape()
      reads this, repr`isInitialized
    {
      AllIdle(rec, repr, now.place.Keys) &&
      pageShift >= 12 && pageSize == Pow2(pageShift) && 4096 <= pageSize <= ADDRESS_LIMIT && pageSize % 16 == 0 &&
      |heads| == MAX_BINNED_PAGES && |nonEmpty| == FREE_BITMAP_WORDS &&
      now.pageSize == pageSize && now.spans == spans && now.heads == heads && now.bits == FreeSet(nonEmpty) &&
      rec.Keys == spans.Keys && RecordsAt(rec, repr)
    }

    /** The metadata arena holds the records, and the page map holds the table. */
    ghost predicate Backed()
      reads this`pageMap, this`now, this`spans, this`chunkRec, meta
    {
      meta.pageSize == pageSize && BackedBy(meta.Now(), pageMap, now.table, spans.Keys, chunkRec.Keys)
    }

    ghost predicate Valid()
      reads this, meta, repr`isInitialized
    {
      Shape() && Backed() && Sound(now, meta.Now(), pageMap, bytes) && (now.tiles != map[] ==> dataArena != 0)
    }

    lemma {:induction false} Ties()
      requires Valid()
      ensures now.spans == spans && now.pageSize == pageSize && 4096 <= pageSize && pageSize % 16 == 0
    {
      hide Sound, BackedBy, FreeSet;
    }

    lemma {:induction false} Records(a: nat)
      requires Valid() && a in rec
      ensures rec[a].address == a && rec[a] in repr
    {
      hide Sound, BackedBy, FreeSet;
    }

    lemma {:induction false} IsSound()
      requires Valid()
      ensures Sound(now, meta.Now(), pageMap, bytes)
    {
      hide Sound, BackedBy, FreeSet, RecordsAt, AllIdle;
    }

    lemma {:induction false} UsedRecord(a: nat)
      requires Valid() && a in now.Used()
      ensures a in rec && rec[a].address == a && rec[a] in repr
    {
      hide Sound, BackedBy, FreeSet;
    }

    /** Once a page is in the page map there is one, and the page's index is a key it can hold. */
    lemma {:induction false} MapThere(k: nat)
      requires Valid() && k in now.table
      ensures pageMap != 0 && k < KEY_LIMIT
    {
      hide FreeSet, RecordsAt, AllIdle, Pages.ChunksOk, Pages.PoolOk, State.Ok, Regions, BytesOk, WatchesUsed;
      assert now.Covers(now.table[k], k);
      assert now.SpanOk(now.table[k]);
    }

    /** The zero-initialised globals, once the page size is known. */
    constructor (shift: nat)
      requires 12 <= shift && Pow2(shift) <= ADDRESS_LIMIT
      ensures Valid() && pageShift == shift && fresh(meta) && fresh(repr)
      ensures pageMap == 0 && dataArena == 0 && spans == map[] && chunkRec == map[] && meta.watched == map[] &&
        now.Used() == {}
    {
      hide Sound, BackedBy, State.Ok, Pow2, FreeSet, NoPages;
      pageShift := shift;
      pageSize := Pow2(shift);
      PageSizeOk(shift);
      meta := new Metadata(Pow2(shift));
      pageMap, dataArena := 0, 0;
      heads := seq(MAX_BINNED_PAGES, _ => 0);
      nonEmpty := seq(FREE_BITMAP_WORDS, _ => 0);
      spans, rec, chunkRec, bytes := map[], map[], map[], map[];
      now := NoPages(Pow2(shift));
      repr := {};
      new;
      NothingYet(pageSize, meta.Now());
      NoBits(nonEmpty);
      assert spans.Keys == rec.Keys == chunkRec.Keys == {};
    }

    /** src/span.c:34-38 */
    method MarkBinnedSpanNonEmpty(pageCount: nat)
      requires |nonEmpty| == FREE_BITMAP_WORDS && pageCount < MAX_BINNED_PAGES
      modifies this`nonEmpty
      ensures FreeSet(nonEmpty) == FreeSet(old(nonEmpty)) + {pageCount} && |nonEmpty| == old(|nonEmpty|)
    {
      var w := WithBit(nonEmpty[pageCount / 64], pageCount % 64);
      nonEmpty := nonEmpty[pageCount / 64 := w];
      BitmapAdd(old(nonEmpty), nonEmpty, pageCount, w);
    }

    /** src/span.c:40-45 */
    method MarkBinnedSpanEmpty(pageCount: nat)
      requires |nonEmpty| == FREE_BITMAP_WORDS && pageCount < MAX_BINNED_PAGES
      modifies this`nonEmpty
      ensures FreeSet(nonEmpty) == FreeSet(old(nonEmpty)) - {pageCount} && |nonEmpty| == old(|nonEmpty|)
    {
      var w := WithoutBit(nonEmpty[pageCount / 64], pageCount % 64);
      nonEmpty := nonEmpty[pageCount / 64 := w];
      BitmapRemove(old(nonEmpty), nonEmpty, pageCount, w);
    }

    /** src/span.c:50-78: the least non-empty bin of at least pageCount pages, if there is one. */
    method FindBestFitting(pageCount: nat) returns (result: nat)
      requires |nonEmpty| == FREE_BITMAP_WORDS && pageCount < MAX_BINNED_PAGES
      requires forall p :: p in FreeSet(nonEmpty) ==> p < MAX_BINNED_PAGES
      ensures result == NO_FITTING_PAGE_SEQUENCE <==> forall p :: p in FreeSet(nonEmpty) ==> p < pageCount
      ensures result != NO_FITTING_PAGE_SEQUENCE ==>
        result in FreeSet(nonEmpty) && pageCount <= result &&
        forall p :: p in FreeSet(nonEmpty) && pageCount <= p ==> result <= p
    {
      var wordIndex := pageCount / 64;
      var bitIndex := pageCount % 64;
      var word := FromBit(nonEmpty[wordIndex], bitIndex);
      while true
        invariant wordIndex < FREE_BITMAP_WORDS
        invariant forall b: nat ::
          b in Ones(word) <==> b in Ones(nonEmpty[wordIndex]) && pageCount <= 64 * wordIndex + b
        invariant forall p :: p in FreeSet(nonEmpty) && pageCount <= p ==> wordIndex <= p / 64
        decreases FREE_BITMAP_WORDS - wordIndex
      {
        ZeroIsEmpty(word);
        if word != 0 {
          var foundBit := LowestBit(word);
          result := wordIndex * 64 + foundBit;
          assert result / 64 == wordIndex && result % 64 == foundBit;
          assert result in FreeSet(nonEmpty);
          forall p | p in FreeSet(nonEmpty) && pageCount <= p ensures result <= p {
            assert p == 64 * (p / 64) + p % 64;
          }
          return;
        }
        wordIndex := wordIndex + 1;
        forall p | p in FreeSet(nonEmpty) && pageCount <= p ensures wordIndex <= p / 64 {
          assert p == 64 * (p / 64) + p % 64;
        }
        if wordIndex >= FREE_BITMAP_WORDS { return NO_FITTING_PAGE_SEQUENCE; }
        word := nonEmpty[wordIndex];
      }
    }

    /** src/span.c:103-106 and 109-112: take the head of a bin. */
    method PopBin(pageCount: nat) returns (a: nat)
      requires Shape() && now.Ok() && pageCount < MAX_BINNED_PAGES && |now.pool| == MAX_BINNED_PAGES &&
        now.pool[pageCount] != []
      modifies this`heads, this`nonEmpty, this`now
      ensures Shape() && now == Taken(old(now), pageCount) && a == Last(old(now.pool)[pageCount]) && a in spans
      ensures old(Backed()) ==> Backed()
    {
      hide Pages.SpansOk, Pages.TableOk, Pages.ChunksOk, Pages.PoolOk, Pages.Used, FreeSet, RecordsAt, AllIdle, Pow2,
        Times, Quotient, Extends;
      TakenBits(now, pageCount);
      TakenOk(now, pageCount);
      a := heads[pageCount];
      heads := heads[pageCount := spans[a].bin];
      if heads[pageCount] == 0 {
        MarkBinnedSpanEmpty(pageCount);
      }
      IdleLess(rec, repr, now.place.Keys, a);
      assert Taken(now, pageCount).place.Keys == now.place.Keys - {a};
      now := Taken(now, pageCount);
    }

    /** src/span.c:121-125, 174-177 and 193-195: a span becomes the head of its bin. */
    method PushBin(a: nat)
      requires Shape() && |now.pool| == MAX_BINNED_PAGES && a in spans && spans[a].pages < MAX_BINNED_PAGES
      requires a in rec && !rec[a].isInitialized
      modifies this`spans, this`heads, this`nonEmpty, this`now
      ensures Shape() && now == Given(old(now), a) && (old(Backed()) ==> Backed())
      ensures heads == old(heads)[old(spans[a].pages) := a]
      ensures spans == old(spans)[a := old(spans[a]).(bin := old(heads)[old(spans[a].pages)])]
    {
      hide FreeSet, BackedBy, RecordsAt, AllIdle, Pow2, Times, Quotient, Extends;
      var p := spans[a].pages;
      spans := spans[a := spans[a].(bin := heads[p])];
      heads := heads[p := a];
      MarkBinnedSpanNonEmpty(p);
      RecordIn(rec, repr, a);
      IdleMore(rec, repr, now.place.Keys, a);
      assert Given(now, a).place.Keys == now.place.Keys + {a};
      now := Given(now, a);
      assert spans.Keys == old(spans.Keys);
    }

    /** Write a span record. */
    method SetSpan(a: nat, x: Phys)
      requires Shape() && a in spans
      modifies this`spans, this`now
      ensures Shape() && now == WithSpan(old(now), a, x) && spans == old(spans)[a := x]
      ensures old(Backed()) ==> Backed()
    {
      hide FreeSet, RecordsAt, AllIdle, Pow2, BackedBy;
      spans := spans[a := x];
      now := WithSpan(now, a, x);
      assert spans.Keys == old(spans.Keys);
    }

    method RecordMemory() returns (ok: bool, a: nat)
      requires Backed() && pageMap != 0
      modifies meta
      ensures ok ==> a !in spans && a != 0 && Steady(old(meta.Now()), meta.Now())
      ensures ok ==> BackedBy(meta.Now(), pageMap, now.table, spans.Keys + {a}, chunkRec.Keys)
    {
      hide BackedBy, Handed, Steady, State.Ok;
      ghost var m := meta.Now();
      BackedOk(m, pageMap, now.table, spans.Keys, chunkRec.Keys);
      ok, a := meta.AllocMetadata(SPAN_BYTES);
      if ok { RecordBacked(m, meta.Now(), pageMap, now.table, spans.Keys, chunkRec.Keys, a); }
    }

    /** Metadata memory for a span record, whose fields are whatever the memory holds; every caller
        marks it uninitialised. */
    method NewRecord() returns (ok: bool, a: nat)
      requires Shape() && Backed() && pageMap != 0
      modifies this`spans, this`rec, this`now, this`repr, meta
      ensures ok ==> Shape() && Backed() && a !in old(spans) && a != 0 && a in spans
      ensures ok ==> now == WithSpan(old(now), a, spans[a]) && Steady(old(meta.Now()), meta.Now())
      ensures ok ==> a in rec && !rec[a].isInitialized
      ensures ok ==> Extends(old(rec), rec) && fresh(repr - old(repr))
    {
      hide BackedBy, Steady, State.Ok, FreeSet, RecordsAt, AllIdle, Extends, Pow2;
      ok, a := RecordMemory();
      if ok { EnterRecord(a); }
    }

    /** A record at a, its fields arbitrary. */
    method EnterRecord(a: nat)
      requires Shape() && meta.pageSize == pageSize && a !in spans
      requires BackedBy(meta.Now(), pageMap, now.table, spans.Keys + {a}, chunkRec.Keys)
      modifies this`spans, this`rec, this`now, this`repr
      ensures Shape() && Backed() && a in spans && now == WithSpan(old(now), a, spans[a])
      ensures a in rec && !rec[a].isInitialized && Extends(old(rec), rec) && fresh(repr - old(repr))
    {
      hide BackedBy, State.Ok, FreeSet, RecordsAt, AllIdle, Extends, Pow2, WithSpan;
      var garbage: Phys := *;
      SpanFields(now, a, garbage);
      var span := new Span(a);
      span.isInitialized := false;
      RecordAdded(rec, repr, a, span);
      IdleWithRecord(rec, repr, now.place.Keys, a, span);
      rec := rec[a := span];
      spans := spans[a := garbage];
      now := WithSpan(now, a, garbage);
      repr := repr + {span};
      assert spans.Keys == old(spans.Keys) + {a};
    }

    /** Enter the pages of a span in the page map. */
    method MapPages(a: nat, from: nat, to: nat) returns (ok: bool)
      requires Shape() && Backed() && pageMap != 0 && a != 0 && from <= to <= KEY_LIMIT
      requires meta.watched != map[] ==> meta.watchedRoot == pageMap
      requires forall k :: from <= k < to ==> k !in meta.watched
      modifies this`now, meta
      ensures ok ==>
        Shape() && Backed() && now == WithPages(old(now), from, to, a) && Steady(old(meta.Now()), meta.Now())
    {
      hide BackedBy, RangeStep, Steady, State.Ok, FreeSet, Range, RecordsAt, AllIdle, Pow2;
      ghost var m := meta.Now();
      BackedOk(m, pageMap, now.table, spans.Keys, chunkRec.Keys);
      ok := meta.MapRange(pageMap, a, from, to);
      if !ok { return; }
      RangeBacked(m, meta.Now(), pageMap, now.table, spans.Keys, chunkRec.Keys, from, to, a);
      now := WithPages(now, from, to, a);
    }

    /** src/span.c:113-129: cut the pages beyond pageCount off a span and cache them. */
    method CutOff(a: nat, pageCount: nat) returns (ok: bool, r: nat)
      requires Shape() && Backed() && pageMap != 0 && now.Ok() && a in spans && 0 < pageCount < spans[a].pages
      requires a in now.home && a !in now.place
      requires meta.watched != map[] ==> meta.watchedRoot == pageMap
      requires forall k :: k in meta.watched ==> k in now.table && now.table[k] != a
      modifies this`spans, this`rec, this`heads, this`nonEmpty, this`now, this`repr, meta
      ensures ok ==> Shape() && Backed() && Cut(old(now), now, a, r, pageCount) && Steady(old(meta.Now()), meta.Now())
      ensures ok ==> Extends(old(rec), rec) && fresh(repr - old(repr))
    {
      hide Pages.SpansOk, Pages.TableOk, Pages.ChunksOk, Pages.PoolOk, BackedBy, Steady, FreeSet, Given, Split,
        SplitSpans, Cut, CanSplit, Range, Inserted, Extends, RecordsAt, AllIdle, Pow2, Times, Linked;
      ghost var s, m := now, meta.Now();
      ok, r := NewRecord();
      if !ok { return; }
      ghost var i, g := TileOf(s, a), spans[r].bin;
      Splittable(s, a, i, r, pageCount);
      ghost var m1 := meta.Now();
      SteadyWatch(m, m1);
      LinkSplit(s, a, i, r, pageCount);
      ok := MapRest(s, a, i, r, pageCount, g);
      if !ok { return; }
      SteadyTwice(m, m1, meta.Now());
      SplitSizes(s, a, i, r, pageCount, g);
      ghost var s1 := now;
      PushBin(r);
      IsCut(s, s1, now, a, i, r, pageCount, g);
    }

    /** src/span.c:113, 116-120 and 127-128: shrink a span and link the rest of it behind it. */
    method LinkSplit(ghost s: Pages, a: nat, ghost i: nat, r: nat, pageCount: nat)
      requires Shape() && a in spans && r in spans && CanSplit(s, a, i, r, pageCount)
      requires now == WithSpan(s, r, spans[r]) && s.pageSize == pageSize
      modifies this`spans, this`now
      ensures Shape() && (old(Backed()) ==> Backed())
      ensures r in old(spans) && CanSplit(s, a, i, r, pageCount) &&
        now == Linked(s, a, i, r, pageCount, old(spans[r].bin))
    {
      hide Pages.SpansOk, Pages.TableOk, Pages.ChunksOk, Pages.PoolOk, FreeSet, CanSplit, RecordsAt, AllIdle, Pow2,
        Times, BackedBy, SplitSpans, Linked, WithSpan;
      CutFacts(s, a, i, r, pageCount);
      SpanFields(s, r, spans[r]);
      Relink(a, r, pageCount);
      SplitChain(s, a, i, r, pageCount, old(spans[r]), spans);
      now := Linked(s, a, i, r, pageCount, old(spans[r].bin));
    }

    method Relink(a: nat, r: nat, pageCount: nat)
      requires a in spans && r in spans && a != r && 0 < pageCount < spans[a].pages
      requires spans[a].next != 0 ==> spans[a].next in spans && spans[a].next != a && spans[a].next != r
      modifies this`spans
      ensures spans.Keys == old(spans.Keys)
      ensures spans[a] == old(spans[a]).(pages := pageCount, next := r)
      ensures spans[r] == Phys(old(spans[a].next), a, old(spans[r].bin),
          old(spans[a].base) + Times(pageCount, pageSize), old(spans[a].pages) - pageCount)
      ensures forall b :: b in spans && b != a && b != r ==>
        spans[b] == if b != 0 && b == old(spans[a].next) then old(spans)[b].(prev := r) else old(spans)[b]
    {
      hide Times;
      var bestFittingPages := spans[a].pages;
      spans := spans[a := spans[a].(pages := pageCount)];
      spans := spans[r := spans[r].(base := spans[a].base + Times(pageCount, pageSize))];
      spans := spans[r := spans[r].(pages := bestFittingPages - pageCount)];
      spans := spans[r := spans[r].(next := spans[a].next, prev := a)];
      if spans[a].next != 0 {
        spans := spans[spans[a].next := spans[spans[a].next].(prev := r)];
      }
      spans := spans[a := spans[a].(next := r)];
    }

    /** src/span.c:123-124 */
    method MapRest(ghost s: Pages, ghost a: nat, ghost i: nat, r: nat, ghost pageCount: nat, ghost g: nat)
        returns (ok: bool)
      requires Shape() && Backed() && pageMap != 0 && r in spans && CanSplit(s, a, i, r, pageCount)
      requires now == Linked(s, a, i, r, pageCount, g)
      requires meta.watched != map[] ==> meta.watchedRoot == pageMap
      requires forall k :: k in meta.watched ==> k in s.table && s.table[k] != a
      modifies this`now, meta
      ensures ok ==>
        Shape() && Backed() && SplitDone(s, a, i, r, pageCount, g, now) && Steady(old(meta.Now()), meta.Now())
    {
      hide Pages.SpansOk, Pages.TableOk, Pages.ChunksOk, Pages.PoolOk, BackedBy, Steady, Linked, CanSplit, WithPages,
        FreeSet, RecordsAt, AllIdle, Pow2, Times, Quotient, SplitDone;
      CutPages(s, a, i, r, pageCount, g);
      var from := Quotient(spans[r].base, pageSize);
      var to := from + spans[r].pages;
      ok := MapPages(r, from, to);
      if !ok { return; }
      now := Booked(s, a, i, r, pageCount, g);
    }

    /** mmap for user data: zero-filled pages none of which is in the page map. */
    method MapRegion(n: nat, ghost s: Pages) returns (ok: bool, base: nat, ghost c: nat)
      requires Shape() && Backed() && s.pageSize == pageSize && s.table == now.table && n > 0
      requires Sound(s, meta.Now(), pageMap, bytes)
      modifies meta`mapped, this`bytes
      ensures ok ==> Backed() && base == Times(c, pageSize) && Opening(s, meta.Now(), pageMap, bytes, c, n)
      ensures ok ==> WatchKept(old(meta.Now()), meta.Now()) && BytesSame(pageSize, s.table.Keys, old(bytes), bytes)
      ensures ok ==> forall x :: base <= x < base + Times(n, pageSize) ==> x in bytes && bytes[x] == 0
    {
      hide BackedBy, Sound, Opening, State.Ok, BytesSame, RegionsOk, RecordsAt, AllIdle, Pow2, Times, FreeSet;
      ghost var m := meta.Now();
      BackedOk(m, pageMap, now.table, spans.Keys, chunkRec.Keys);
      ChunksMapped(m);
      TimesPositive(n, pageSize);
      ok, base, c := meta.Mmap(Times(n, pageSize));
      if !ok { return; }
      RegionBacked(m, meta.mapped, pageMap, now.table, spans.Keys, chunkRec.Keys);
      Opened(s, m, meta.Now(), pageMap, bytes, c, n);
      bytes := bytes + Range(base, base + Times(n, pageSize), 0);
    }

    /** Enter some of the pages of a new region in the page map. */
    method MapNew(a: nat, ghost k: nat, ghost s: Pages, ghost c: nat, ghost n: nat) returns (ok: bool)
      requires Shape() && Backed() && pageMap != 0 && a != 0 && a in spans && spans[a].base == Times(k, pageSize)
      requires Opening(s, meta.Now(), pageMap, bytes, c, n) && c <= k && k + spans[a].pages <= c + n
      modifies this`now, meta
      ensures ok ==> Shape() && Backed() && now == WithPages(old(now), k, k + spans[a].pages, a)
      ensures ok ==> Opening(s, meta.Now(), pageMap, bytes, c, n) && WatchKept(old(meta.Now()), meta.Now())
    {
      hide BackedBy, Opening, State.Ok, Steady, WithPages, FreeSet, RecordsAt, AllIdle, Pow2, Times, Quotient,
        WatchKept;
      ghost var m := meta.Now();
      RegionFacts(s, m, pageMap, bytes, c, n);
      QuotientOf(spans[a].base, k, pageSize);
      var from := Quotient(spans[a].base, pageSize);
      assert from == k;
      ok := MapPages(a, from, from + spans[a].pages);
      if ok { OpeningSteady(s, m, meta.Now(), pageMap, bytes, c, n); }
    }

    /** src/span.c:85-98: a span too large for a bin is a mapping of its own. */
    method AllocHuge(pageCount: nat) returns (ok: bool, a: nat)
      requires Valid() && pageMap != 0 && pageCount >= MAX_BINNED_PAGES
      modifies this`spans, this`rec, this`bytes, this`now, this`repr, meta
      ensures ok ==> Valid() && Allocated(old(now), now, a, pageCount) && WatchKept(old(meta.Now()), meta.Now())
      ensures ok ==> BytesSame(pageSize, old(now.table.Keys), old(bytes), bytes)
      ensures ok ==> Extends(old(rec), rec) && fresh(repr - old(repr))
    {
      hide Sound, Opening, BackedBy, State.Ok, BytesSame, FreeSet, Steady, WatchKept, Allocated, BestFit, Extends,
        NewMapping, RecordsAt, AllIdle, Pow2, Times, WithPages;
      ghost var s, m := now, meta.Now();
      ok, a := NewRecord();
      if !ok { return; }
      ghost var m1 := meta.Now();
      SoundSteady(s, m, m1, pageMap, bytes);
      var base;
      ghost var c;
      ok, base, c := MapRegion(pageCount, s);
      if !ok { return; }
      ghost var m2 := meta.Now();
      WatchTwice(m, m1, m2);
      SetAgain(s, a, spans[a], spans[a].(base := base, pages := pageCount));
      SetSpan(a, spans[a].(base := base, pages := pageCount));
      ok := MapNew(a, c, s, c, pageCount);
      if !ok { return; }
      WatchTwice(m, m2, meta.Now());
      HugeFits(s, a, pageCount);
      WholeDone(a, pageCount, c, s);
    }

    /** The bookkeeping once all of a new region's pages are mapped to one span. */
    ghost method WholeDone(a: nat, n: nat, c: nat, s: Pages)
      requires Shape() && Backed() && a in spans && Opening(s, meta.Now(), pageMap, bytes, c, n)
      requires now == WithPages(WithSpan(s, a, spans[a]), c, c + n, a) && a !in s.spans && a != 0 && BestFit(s, a, n)
      requires spans[a].base == Times(c, pageSize) && spans[a].pages == n && s.pageSize == pageSize
      requires if n < MAX_BINNED_PAGES
        then spans[a].next == spans[a].prev == 0 && dataArena != 0 && n == ChunkPageCount(n, pageSize)
        else (s.tiles != map[] ==> dataArena != 0)
      modifies this`now
      ensures Valid() && Allocated(s, now, a, n)
    {
      hide Sound, Opening, BackedBy, State.Ok, FreeSet, Allocated, BestFit, NewMapping, RecordsAt, AllIdle, Pow2, Times,
        WithPages, WithSpan;
      WholeIsNew(s, c, n, a, spans[a], now);
      OpenedWhole(s, meta.Now(), pageMap, bytes, c, n, a, spans[a]);
      now := NewMapping(s, c, n, a, spans[a]);
    }

    /** src/span.c:137-149: the record and the pages of another data chunk. */
    method OpenChunk(n: nat, ghost s: Pages) returns (ok: bool, base: nat, ghost c: nat)
      requires Shape() && Backed() && pageMap != 0 && s.pageSize == pageSize && s.table == now.table && n > 0
      requires Sound(s, meta.Now(), pageMap, bytes)
      modifies this`dataArena, this`chunkRec, this`bytes, meta
      ensures ok ==>
        Backed() && dataArena != 0 && base == Times(c, pageSize) && Opening(s, meta.Now(), pageMap, bytes, c, n)
      ensures ok ==> WatchKept(old(meta.Now()), meta.Now()) && BytesSame(pageSize, s.table.Keys, old(bytes), bytes)
      ensures ok ==>
        dataArena !in old(chunkRec) && chunkRec == old(chunkRec)[dataArena := DataChunk(base, old(dataArena))]
      ensures ok ==> forall x :: base <= x < base + Times(n, pageSize) ==> x in bytes && bytes[x] == 0
    {
      hide Sound, Opening, BackedBy, State.Ok, BytesSame, FreeSet, Steady, WatchKept, RecordsAt, AllIdle, Pow2,
        Times, Quotient, Extends;
      ghost var m := meta.Now();
      var prev := dataArena;
      ok, dataArena := NewChunkRecord(prev);
      if !ok { return ok, 0, 0; }
      ghost var m1 := meta.Now();
      SoundSteady(s, m, m1, pageMap, bytes);
      ok, base, c := MapRegion(n, s);
      if !ok {
        dataArena := prev;
        return;
      }
      ghost var keys := chunkRec.Keys;
      chunkRec := chunkRec[dataArena := chunkRec[dataArena].(base := base)];
      WatchTwice(m, m1, meta.Now());
      assert chunkRec.Keys == keys;
    }

    method NewChunkRecord(prev: nat) returns (ok: bool, d: nat)
      requires Shape() && Backed() && pageMap != 0
      modifies this`chunkRec, meta
      ensures ok ==> Backed() && d != 0 && d !in old(chunkRec) && d in chunkRec && chunkRec[d].prev == prev
      ensures ok ==> chunkRec == old(chunkRec)[d := chunkRec[d]] && Steady(old(meta.Now()), meta.Now())
    {
      hide BackedBy, Handed, Steady, State.Ok, FreeSet, RecordsAt, AllIdle, Pow2, Times, Quotient, Extends;
      ghost var m := meta.Now();
      BackedOk(m, pageMap, now.table, spans.Keys, chunkRec.Keys);
      ok, d := meta.AllocMetadata(CHUNK_BYTES);
      if !ok { return; }
      ChunkBacked(m, meta.Now(), pageMap, now.table, spans.Keys, chunkRec.Keys, d);
      var garbage: nat := *;
      chunkRec := chunkRec[d := DataChunk(garbage, prev)];
      assert chunkRec.Keys == old(chunkRec.Keys) + {d};
    }

    /** src/span.c:150-159 and 163-172: a span on some of the new pages. */
    method PlaceSpan(base: nat, pageCount: nat, prev: nat, ghost k: nat, ghost s: Pages, ghost c: nat, ghost n: nat)
        returns (ok: bool, a: nat)
      requires Shape() && Backed() && pageMap != 0 && base == Times(k, pageSize)
      requires Opening(s, meta.Now(), pageMap, bytes, c, n) && c <= k && k + pageCount <= c + n
      modifies this`spans, this`rec, this`now, this`repr, meta
      ensures ok ==> Shape() && Backed() && a !in old(spans) && a != 0 && a in spans
      ensures ok ==> spans[a] == Phys(0, prev, spans[a].bin, base, pageCount) && a in rec && !rec[a].isInitialized
      ensures ok ==> now == WithPages(WithSpan(old(now), a, spans[a]), k, k + pageCount, a)
      ensures ok ==> Opening(s, meta.Now(), pageMap, bytes, c, n) && WatchKept(old(meta.Now()), meta.Now())
      ensures ok ==> Extends(old(rec), rec) && fresh(repr - old(repr))
    {
      hide Opening, BackedBy, State.Ok, FreeSet, Steady, WatchKept, Extends, RecordsAt, AllIdle, Pow2, Times, WithPages;
      ghost var m := meta.Now();
      ok, a := NewRecord();
      if !ok { return; }
      ghost var m1 := meta.Now();
      OpeningSteady(s, m, m1, pageMap, bytes, c, n);
      SetAgain(old(now), a, spans[a], spans[a].(base := base, pages := pageCount, prev := prev, next := 0));
      SetSpan(a, spans[a].(base := base, pages := pageCount, prev := prev, next := 0));
      ok := MapNew(a, k, s, c, n);
      if ok { WatchTwice(m, m1, meta.Now()); }
    }

    /** src/span.c:131-179 */
    method FreshChunk(pageCount: nat) returns (ok: bool, a: nat)
      requires Valid() && pageMap != 0 && 0 < pageCount < MAX_BINNED_PAGES
      requires forall p :: p in FreeSet(nonEmpty) ==> p < pageCount
      modifies this, meta
      ensures ok ==> Valid() && Allocated(old(now), now, a, pageCount) && WatchKept(old(meta.Now()), meta.Now())
      ensures ok ==> a in now.page && now.page[a] !in old(now.size) && now.page[a] in now.size
      ensures ok ==>
        var n := now.size[now.page[a]];
        Times(n + 1, pageSize) > 0x200_0000 && (Times(n, pageSize) > 0x200_0000 ==> n == pageCount)
      ensures ok ==> BytesSame(pageSize, old(now.table.Keys), old(bytes), bytes) && pageMap == old(pageMap)
      ensures ok ==> Extends(old(rec), rec) && fresh(repr - old(repr))
    {
      hide Sound, Opening, BackedBy, State.Ok, BytesSame, FreeSet, WatchKept, BestFit, Allocated, Extends, RecordsAt,
        AllIdle, Pow2, Times, Quotient;
      ghost var s, m := now, meta.Now();
      var chunkPageCount := Quotient(DATA_CHUNK_SIZE, pageSize);
      ChunkPages(pageSize);
      if pageCount > chunkPageCount {
        chunkPageCount := pageCount;
      }
      var base;
      ghost var c;
      ok, base, c := OpenChunk(chunkPageCount, s);
      if !ok { return ok, 0; }
      ghost var m1 := meta.Now();
      ok, a := CarveChunk(base, chunkPageCount, pageCount, s, c);
      if ok {
        WatchTwice(m, m1, meta.Now());
        SoundOk(s, m, pageMap, old(bytes));
        NotCached(s, a);
        AllocationMeans(s, now, a, pageCount);
      }
    }

    /** src/span.c:150-179 */
    method CarveChunk(base: nat, chunkPageCount: nat, pageCount: nat, ghost s: Pages, ghost c: nat)
        returns (ok: bool, a: nat)
      requires Shape() && Backed() && pageMap != 0 && now == s && dataArena != 0 && base == Times(c, pageSize)
      requires 0 < pageCount <= chunkPageCount < MAX_BINNED_PAGES && forall p :: p in s.bits ==> p < pageCount
      requires chunkPageCount == ChunkPageCount(pageCount, pageSize)
      requires Opening(s, meta.Now(), pageMap, bytes, c, chunkPageCount)
      modifies this`spans, this`rec, this`heads, this`nonEmpty, this`now, this`repr, meta
      ensures ok ==> a !in old(spans)
      ensures ok ==> Valid() && Allocated(s, now, a, pageCount) && WatchKept(old(meta.Now()), meta.Now())
      ensures ok ==> Extends(old(rec), rec) && fresh(repr - old(repr))
    {
      hide Sound, Opening, BackedBy, State.Ok, FreeSet, WatchKept, BestFit, Allocated, Extends, RecordsAt, AllIdle,
        Pow2, Times, WithPages, WithSpan;
      ghost var m := meta.Now();
      OpeningOk(s, m, pageMap, bytes, c, chunkPageCount);
      ok, a := PlaceSpan(base, pageCount, 0, c, s, c, chunkPageCount);
      if !ok { return; }
      ghost var x := spans[a];
      SetSpan(a, spans[a].(bin := 0));
      SetTwice(s, a, x, spans[a], c, c + pageCount);
      NothingFits(s, a, pageCount);
      var remainingPages := chunkPageCount - pageCount;
      if remainingPages > 0 && remainingPages < MAX_BINNED_PAGES {
        ghost var m1, rec1 := meta.Now(), rec;
        ok := CarveRest(a, base, remainingPages, pageCount, s, c, chunkPageCount);
        if ok {
          WatchTwice(m, m1, meta.Now());
          ExtendsTwice(old(rec), rec1, rec);
        }
      } else {
        WholeDone(a, chunkPageCount, c, s);
      }
    }

    /** src/span.c:162-178: the rest of the chunk is cached. */
    method CarveRest(a: nat, base: nat, remainingPages: nat, ghost p: nat, ghost s: Pages, ghost c: nat, ghost n: nat)
        returns (ok: bool)
      requires Shape() && Backed() && pageMap != 0 && base == Times(c, pageSize) && a in spans &&
        spans[a] == Phys(0, 0, spans[a].bin, base, p)
      requires now == WithPages(WithSpan(s, a, spans[a]), c, c + p, a) && BestFit(s, a, p) && a !in s.spans && a != 0
      requires n == p + remainingPages && 0 < p < n < MAX_BINNED_PAGES && dataArena != 0 &&
        n == ChunkPageCount(p, pageSize)
      requires Opening(s, meta.Now(), pageMap, bytes, c, n)
      modifies this`spans, this`rec, this`heads, this`nonEmpty, this`now, this`repr, meta
      ensures ok ==> Valid() && Allocated(s, now, a, p) && WatchKept(old(meta.Now()), meta.Now())
      ensures ok ==> Extends(old(rec), rec) && fresh(repr - old(repr))
    {
      hide Sound, Opening, BackedBy, State.Ok, FreeSet, WatchKept, BestFit, Allocated, Extends, RecordsAt, AllIdle,
        Pow2, Times, WithPages, WithSpan;
      TimesAdd(c, p, pageSize);
      ghost var x := spans[a];
      SizeKept(s, a, x, c, c + p);
      var r;
      ok, r := PlaceSpan(base + Times(spans[a].pages, pageSize), remainingPages, a, c + p, s, c, n);
      if !ok { return; }
      CarvedRecord(s, a, x, r, spans[r], c, p, n);
      SetSpan(a, spans[a].(next := r));
      RestDone(a, r, x, p, s, c, n);
    }

    method RestDone(ghost a: nat, r: nat, ghost x: Phys, ghost p: nat, ghost s: Pages, ghost c: nat, ghost n: nat)
      requires Shape() && Backed() && a in spans && r in spans && a !in s.spans && a != 0 && r !in s.spans && r != 0 &&
        r != a && r in rec && !rec[r].isInitialized
      requires 0 < p < n < MAX_BINNED_PAGES && Opening(s, meta.Now(), pageMap, bytes, c, n) &&
        n == ChunkPageCount(p, s.pageSize)
      requires now == WithSpan(TwoPlaced(s, a, x, r, spans[r], c, p, n), a, x.(next := r)) && BestFit(s, a, p) &&
        dataArena != 0
      requires x == Phys(0, 0, x.bin, Times(c, s.pageSize), p)
      requires spans[r] == Phys(0, a, spans[r].bin, Times(c, s.pageSize) + Times(p, s.pageSize), n - p)
      modifies this`spans, this`heads, this`nonEmpty, this`now
      ensures Valid() && Allocated(s, now, a, p)
    {
      hide Sound, Opening, BackedBy, State.Ok, FreeSet, BestFit, Allocated, RecordsAt, AllIdle, Pow2, Times,
        WithSpan, TwoPlaced, Carved, Given, BooksCarved;
      ghost var t := BooksCarved(now, s, a, r, c, p, n);
      IsCarved(s, t, c, n, p, a, r, x, spans[r]);
      now := t;
      OpenedCarved(s, t, meta.Now(), pageMap, bytes, c, n, p, a, r);
      PushBin(r);
    }

    /** src/span.c:101-130: from the pool, whole or cut. */
    method FromPool(pageCount: nat, bestFittingPages: nat) returns (ok: bool, a: nat)
      requires Valid() && pageMap != 0 && dataArena != 0 && 0 < pageCount <= bestFittingPages &&
        bestFittingPages in now.bits
      requires forall p :: p in now.bits && pageCount <= p ==> bestFittingPages <= p
      modifies this`spans, this`rec, this`heads, this`nonEmpty, this`now, this`repr, meta
      ensures ok ==> Valid() && Allocated(old(now), now, a, pageCount) && WatchKept(old(meta.Now()), meta.Now())
      ensures ok ==> now.table.Keys == old(now.table.Keys)
      ensures ok ==> Extends(old(rec), rec) && fresh(repr - old(repr))
    {
      hide Sound, BackedBy, State.Ok, FreeSet, WatchKept, BestFit, Allocated, Extends, RecordsAt, AllIdle, Pow2,
        Taken, Pages.Ok, Cut, Steady;
      ghost var s, m := now, meta.Now();
      PoolReady(s, m, pageMap, bytes, bestFittingPages, pageCount);
      if pageCount == bestFittingPages {
        PoolTaken(s, m, pageMap, bytes, pageCount);
        ok := true;
        a := PopBin(pageCount);
        WatchSame(m);
        ExtendsSame(rec);
      } else {
        a := PopBin(bestFittingPages);
        ghost var r;
        TakenFields(s, bestFittingPages);
        ok, r := CutOff(a, pageCount);
        if ok { PoolCut(s, m, now, meta.Now(), pageMap, bytes, bestFittingPages, r, pageCount); }
      }
    }

    /** src/span.c:81 */
    method InitializePageMap() returns (ok: bool)
      requires Valid() && pageMap == 0
      modifies this`pageMap, meta
      ensures ok ==> Valid() && pageMap != 0 && WatchKept(old(meta.Now()), meta.Now())
    {
      hide Sound, State.Ok, FreeSet, WatchKept, RecordsAt, AllIdle, Pow2, State.Trie, Steady;
      ghost var m := meta.Now();
      ok, pageMap := meta.InitializeRangeMap();
      if !ok { return; }
      RootNonZero(m, meta.Now(), pageMap);
      RootBacked(m, meta.Now(), now.table, spans.Keys, chunkRec.Keys, pageMap);
      SoundRoot(now, m, meta.Now(), bytes, pageMap);
    }

    /** src/span.c:80-181 */
    method AllocSpan(size: nat) returns (ok: bool, a: nat)
      requires Valid() && 0 < size && size + pageSize <= WORD_LIMIT
      modifies this, meta
      ensures ok ==> Valid() && pageMap != 0 && Allocated(old(now), now, a, PageCount(size, pageSize))
      ensures ok ==> a in now.spans && a in now.page && 0 < now.spans[a].pages
      ensures ok ==>
        Times(now.spans[a].pages - 1, pageSize) < size <= Times(now.spans[a].pages, pageSize)
      ensures ok && now.spans[a].pages < 8193 ==> forall b ::
        b in old(now.place) && b in old(now.spans) && now.spans[a].pages <= old(now.spans)[b].pages ==>
          a in old(now.place) && a in old(now.spans) && old(now.spans)[a].pages <= old(now.spans)[b].pages &&
          old(now.spans)[a].pages < |old(heads)| && old(heads)[old(now.spans)[a].pages] == a
      ensures ok && (a in old(now.place) || now.spans[a].pages >= 8193) ==> now.size == old(now.size)
      ensures ok && a !in old(now.place) && now.spans[a].pages < 8193 ==>
        var c := now.page[a];
        c !in old(now.size) && c in now.size && now.size == old(now.size)[c := now.size[c]] &&
        Times(now.size[c] + 1, pageSize) > 0x200_0000 &&
        (Times(now.size[c], pageSize) > 0x200_0000 ==> now.size[c] == now.spans[a].pages)
      ensures ok ==>
        WatchKept(old(meta.Now()), meta.Now()) && BytesSame(pageSize, old(now.table.Keys), old(bytes), bytes)
      ensures ok ==> Extends(old(rec), rec) && fresh(repr - old(repr))
    {
      hide Sound, BackedBy, State.Ok, FreeSet, WatchKept, BestFit, Allocated, Extends, RecordsAt, AllIdle, Pow2,
        Pages.Ok, BytesSame, PageCount;
      ghost var m := meta.Now();
      WatchSame(m);
      if pageMap == 0 {
        ok := InitializePageMap();
        if !ok { return ok, 0; }
      }
      ghost var m1 := meta.Now();
      RoundUpPage(size, pageShift);
      var pageCount := Quotient(AndNot(size + (pageSize - 1), pageSize - 1), pageSize);
      ok, a := AllocPages(pageCount);
      if ok {
        WatchTwice(m, m1, meta.Now());
        AllocationMeans(old(now), now, a, pageCount);
      }
    }

    /** src/span.c:85-181 */
    method AllocPages(pageCount: nat) returns (ok: bool, a: nat)
      requires Valid() && pageMap != 0 && 0 < pageCount
      modifies this, meta
      ensures ok ==> Valid() && pageMap == old(pageMap) && Allocated(old(now), now, a, pageCount)
      ensures ok ==>
        WatchKept(old(meta.Now()), meta.Now()) && BytesSame(pageSize, old(now.table.Keys), old(bytes), bytes)
      ensures ok ==> Extends(old(rec), rec) && fresh(repr - old(repr))
    {
      hide Sound, BackedBy, State.Ok, FreeSet, WatchKept, BestFit, Allocated, Extends, RecordsAt, AllIdle, Pow2,
        Pages.Ok, BytesSame;
      if pageCount >= MAX_BINNED_PAGES {
        ok, a := AllocHuge(pageCount);
        return;
      }
      BitsBelow(now, meta.Now(), pageMap, bytes);
      var bestFittingPages := FindBestFitting(pageCount);
      if dataArena != 0 && bestFittingPages != NO_FITTING_PAGE_SEQUENCE {
        ok, a := FromPool(pageCount, bestFittingPages);
        BytesUnchanged(pageSize, old(now.table.Keys), bytes);
      } else {
        ok, a := FreshChunk(pageCount);
      }
    }

    /** src/span.c:183-196 */
    method CacheSpan(span: Span) returns (ok: bool)
      requires Valid() && span.address in rec && rec[span.address] == span && span.address in now.Used()
      requires forall k :: k in meta.watched && k in now.table ==> now.table[k] != span.address
      modifies this, meta, span`isInitialized
      ensures ok ==>
        Valid() && Released(old(now), now, span.address) && WatchKept(old(meta.Now()), meta.Now()) &&
        pageMap == old(pageMap)
      ensures ok ==> BytesSame(pageSize, now.table.Keys, old(bytes), bytes)
      ensures ok ==> Extends(rec, old(rec)) && repr == old(repr)
      ensures ok && old(spans[span.address].pages) < MAX_BINNED_PAGES ==>
        BackInBin(old(now), now, span.address) && !span.isInitialized &&
        heads == old(heads)[old(spans[span.address].pages) := span.address] &&
        spans == old(spans)[span.address :=
          old(spans[span.address]).(bin := old(heads[spans[span.address].pages]))]
      ensures ok && old(spans[span.address].pages) >= MAX_BINNED_PAGES ==>
        Dropped(old(now), now, span.address) &&
        RegionGone(old(meta.Now()), meta.Now(), old(spans[span.address].base)) &&
        Head(meta.free, SPAN_BYTES) == span.address
    {
      hide Sound, BackedBy, State.Ok, FreeSet, WatchKept, Released, Extends, RecordsAt, AllIdle, Pow2, BytesSame, Given,
        Pages.Ok, Dropped, RegionGone;
      var a := span.address;
      if spans[a].pages >= MAX_BINNED_PAGES {
        ok := ReleaseHuge(a);
        return;
      }
      GivenSound(now, meta.Now(), pageMap, bytes, a);
      WatchSame(meta.Now());
      ExtendsSame(rec);
      BytesUnchanged(pageSize, now.table.Keys, bytes);
      IdleBut(rec, repr, now.place.Keys, span);
      span.isInitialized := false;
      IdleAll(rec, repr, now.place.Keys, span);
      PushBin(a);
      ok := true;
    }

    /** src/span.c:185-189 */
    method ReleaseHuge(a: nat) returns (ok: bool)
      requires Valid() && a in now.Used() && a in spans && spans[a].pages >= MAX_BINNED_PAGES
      requires forall k :: k in meta.watched && k in now.table ==> now.table[k] != a
      modifies this`spans, this`rec, this`bytes, this`now, meta
      ensures ok ==> Valid() && Released(old(now), now, a) && WatchKept(old(meta.Now()), meta.Now())
      ensures ok ==> BytesSame(pageSize, now.table.Keys, old(bytes), bytes) && Extends(rec, old(rec))
      ensures ok ==> Dropped(old(now), now, a) && RegionGone(old(meta.Now()), meta.Now(), old(spans[a].base))
      ensures ok ==> Head(meta.free, SPAN_BYTES) == a
    {
      hide Sound, BackedBy, State.Ok, FreeSet, WatchKept, Released, Extends, RecordsAt, AllIdle, Pow2, BytesSame,
        Unmapping, Pages.Ok;
      hide WithoutPages, Steady, Times, Range, RegionGone;
      ghost var s, m := now, meta.Now();
      ok := UnmapHuge(a);
      if !ok { return; }
      ghost var m2 := meta.Now();
      ok := ForgetSpan(a, s);
      if ok {
        WatchTwice(m, m2, meta.Now());
        RegionStaysGone(Unmapping(s, a), m, m2, meta.Now(), pageMap, bytes, old(spans[a].base));
      }
    }

    /** src/span.c:186-187 */
    method UnmapHuge(a: nat) returns (ok: bool)
      requires Valid() && a in now.Used() && a in spans && spans[a].pages >= MAX_BINNED_PAGES
      requires forall k :: k in meta.watched && k in now.table ==> now.table[k] != a
      modifies this`bytes, this`now, meta
      ensures ok ==> Shape() && Backed() && pageMap != 0 && a in old(now).spans && a in old(now).page
      ensures ok ==> now == WithoutPages(old(now), old(now.page[a]), old(now.page[a] + now.spans[a].pages))
      ensures ok ==> Sound(Unmapping(old(now), a), meta.Now(), pageMap, bytes) && WatchKept(old(meta.Now()), meta.Now())
      ensures ok ==>
        RegionGone(old(meta.Now()), meta.Now(), spans[a].base) && Released(old(now), Unmapping(old(now), a), a)
      ensures ok ==> BytesSame(pageSize, Unmapping(old(now), a).table.Keys, old(bytes), bytes)
    {
      hide Sound, BackedBy, State.Ok, FreeSet, WatchKept, Released, Extends, RecordsAt, AllIdle, Pow2, BytesSame,
        Unmapping, Pages.Ok;
      hide Pages.Used, WithoutPages, Steady, Times, Quotient, Range, RegionGone;
      ghost var s, m := now, meta.Now();
      SomePages(s, m, pageMap, bytes, spans.Keys, chunkRec.Keys, a);
      HugeFacts(s, m, pageMap, bytes, a);
      var from := Quotient(spans[a].base, pageSize);
      ok := UnmapPages(a, from, from + spans[a].pages);
      if !ok { return; }
      WithoutFields(s, s.page[a], s.page[a] + s.spans[a].pages, a);
      DropRegion(a, s, m);
    }

    method DropRegion(a: nat, ghost s: Pages, ghost m: State)
      requires Shape() && Backed() && a in spans && s.spans == spans && s.pageSize == pageSize && a in s.page
      requires a !in s.home && a in s.Used() && spans[a].base == Times(s.page[a], pageSize)
      requires Sound(s, m, pageMap, bytes) && Steady(m, meta.Now())
      requires forall k :: k in m.watched && k in s.table ==> s.table[k] != a
      modifies this`bytes, meta`mapped
      ensures Backed() && Sound(Unmapping(s, a), meta.Now(), pageMap, bytes) && WatchKept(m, meta.Now())
      ensures RegionGone(m, meta.Now(), spans[a].base) && Released(s, Unmapping(s, a), a)
      ensures BytesSame(pageSize, Unmapping(s, a).table.Keys, old(bytes), bytes)
    {
      hide Sound, BackedBy, State.Ok, FreeSet, WatchKept, Released, Extends, RecordsAt, AllIdle, Pow2, BytesSame,
        Unmapping, Pages.Ok;
      hide Pages.Used, Steady, Times, Range, RegionGone;
      ghost var m1 := meta.Now();
      SoundSteady(s, m, m1, pageMap, bytes);
      SteadyWatch(m, m1);
      HugeRegion(s, m, m1, pageMap, bytes, a);
      FreeRegion(spans[a].base, Times(spans[a].pages, pageSize));
      Closed(s, m1, meta.Now(), pageMap, old(bytes), a);
      RegionDropped(s, m, m1, meta.Now(), pageMap, old(bytes), spans[a].base);
    }

    method ForgetSpan(a: nat, ghost s: Pages) returns (ok: bool)
      requires Shape() && Backed() && pageMap != 0 && a in spans && a in s.spans && a in s.page && a !in s.place &&
        s.pageSize == pageSize
      requires now == WithoutPages(s, s.page[a], s.page[a] + s.spans[a].pages)
      requires Sound(Unmapping(s, a), meta.Now(), pageMap, bytes) && (s.tiles != map[] ==> dataArena != 0)
      modifies this`spans, this`rec, this`now, meta
      ensures ok ==>
        Valid() && now == Unmapping(s, a) && WatchKept(old(meta.Now()), meta.Now()) && Extends(rec, old(rec))
      ensures ok ==> Steady(old(meta.Now()), meta.Now()) && Head(meta.free, SPAN_BYTES) == a
    {
      hide Sound, BackedBy, State.Ok, FreeSet, WatchKept, Extends, RecordsAt, AllIdle, Pow2, Unmapping, WithoutPages,
        WithoutSpan, Steady, Range;
      ghost var m := meta.Now();
      WithoutFields(s, s.page[a], s.page[a] + s.spans[a].pages, a);
      UnmappingFields(s, a);
      ok := FreeRecord(a);
      if !ok { return; }
      now := Unmapping(s, a);
      SoundSteady(now, m, meta.Now(), pageMap, bytes);
    }

    method UnmapPages(a: nat, from: nat, to: nat) returns (ok: bool)
      requires Shape() && Backed() && pageMap != 0 && a != 0 && from <= to <= KEY_LIMIT
      requires forall k :: from <= k < to ==> k in now.table && now.table[k] == a && k !in meta.watched
      requires meta.watched != map[] ==> meta.watchedRoot == pageMap
      modifies this`now, meta
      ensures ok ==>
        Shape() && Backed() && now == WithoutPages(old(now), from, to) && Steady(old(meta.Now()), meta.Now())
    {
      hide BackedBy, RangeStep, Steady, State.Ok, FreeSet, Range, RecordsAt, AllIdle, Pow2;
      ghost var m := meta.Now();
      BackedOk(m, pageMap, now.table, spans.Keys, chunkRec.Keys);
      KeysHeld(m, pageMap, now.table, spans.Keys, chunkRec.Keys, from, to, a);
      ok := meta.UnmapRange(pageMap, from, to);
      if !ok { return; }
      UnmapBacked(m, meta.Now(), pageMap, now.table, spans.Keys, chunkRec.Keys, from, to);
      now := WithoutPages(now, from, to);
    }

    /** munmap for user data. */
    method FreeRegion(base: nat, len: nat)
      requires Shape() && Backed() && base in meta.mapped && meta.mapped[base] == len && base !in meta.chunks
      modifies this`bytes, meta`mapped
      ensures Backed() && bytes == old(bytes) - Range(base, base + len, 0).Keys
      ensures meta.Now() == old(meta.Now()).(mapped := old(meta.mapped) - {base})
    {
      hide BackedBy, State.Ok, FreeSet, Range, RecordsAt, AllIdle, Pow2, RegionsOk;
      ghost var m := meta.Now();
      BackedOk(m, pageMap, now.table, spans.Keys, chunkRec.Keys);
      ChunksMapped(m);
      FewerRegions(m.mapped, base);
      meta.Munmap(base, len);
      RegionBacked(m, meta.mapped, pageMap, now.table, spans.Keys, chunkRec.Keys);
      bytes := bytes - Range(base, base + len, 0).Keys;
    }

    method FreeRecord(a: nat) returns (ok: bool)
      requires Shape() && Backed() && pageMap != 0 && a in spans && a !in now.place
      modifies this`spans, this`rec, this`now, meta
      ensures ok ==>
        Shape() && Backed() && now == WithoutSpan(old(now), a) && Steady(old(meta.Now()), meta.Now()) &&
        Extends(rec, old(rec))
      ensures ok ==> Head(meta.free, SPAN_BYTES) == a
    {
      hide BackedBy, State.Ok, FreeSet, RecordsAt, AllIdle, Pow2, Steady, Freed, Extends;
      ghost var m := meta.Now();
      RecordReady(m, pageMap, now.table, spans.Keys, chunkRec.Keys, a);
      ok := meta.FreeMetadata(a, SPAN_BYTES);
      if !ok { return; }
      FreedBacked(m, meta.Now(), pageMap, now.table, spans.Keys, chunkRec.Keys, a);
      FreedHead(m, meta.Now(), a, SPAN_BYTES);
      RecordGone(rec, repr, a);
      IdleWithoutRecord(rec, repr, now.place.Keys, a);
      spans, rec := spans - {a}, rec - {a};
      now := WithoutSpan(now, a);
      assert spans.Keys == old(spans.Keys) - {a};
    }

    /** src/span.c:242-244 */
    function GetSpan(ptr: nat): (a: nat)
      requires Valid() && pageMap != 0 && Quotient(ptr, pageSize) < KEY_LIMIT
      reads this, meta, repr`isInitialized
      ensures a == At(now.table, Quotient(ptr, pageSize))
    {
      assert meta.Now().Value(pageMap, Quotient(ptr, pageSize)) == At(now.table, Quotient(ptr, pageSize));
      meta.Get(pageMap, Quotient(ptr, pageSize))
    }

    /** src/span.c:199-240: a span with all its blocks free. */
    method InitializeSpan(sizeClassIndex: int, requestedSize: nat) returns (ok: bool, a: nat)
      requires Valid() && IsClass(sizeClassIndex)
      requires sizeClassIndex == LARGE_CLASS_SIZE_INDEX ==> 0 < requestedSize && requestedSize + pageSize <= WORD_LIMIT
      modifies this, meta, repr
      ensures ok ==> Valid() && pageMap != 0 && WatchKept(old(meta.Now()), meta.Now())
      ensures ok ==> Allocated(old(now), now, a, PageCount(SpanBytes(sizeClassIndex, requestedSize), pageSize))
      ensures ok ==> BytesSame(pageSize, old(now.table.Keys), old(bytes), bytes)
      ensures ok ==> Extends(old(rec), rec) && fresh(repr - old(repr))
      ensures ok ==>
        a in rec && rec[a] in repr && rec[a].address == a && rec[a].BlocksOk() && rec[a].isInitialized &&
        rec[a].sizeClass == sizeClassIndex
      ensures ok ==> a in now.spans && rec[a].blockSize == BlockBytes(sizeClassIndex, requestedSize)
      ensures ok && sizeClassIndex == LARGE_CLASS_SIZE_INDEX ==>
        now.spans[a].pages > 0 &&
        rec[a].blockCount == 1 && rec[a].blockSize == requestedSize &&
        Times(now.spans[a].pages - 1, pageSize) < requestedSize <= Times(now.spans[a].pages, pageSize)
      ensures ok && sizeClassIndex != LARGE_CLASS_SIZE_INDEX ==>
        ClassSpan(sizeClassIndex, rec[a].blockSize, rec[a].blockCount, now.spans[a].pages, pageSize) &&
        Times(rec[a].blockCount, rec[a].blockSize) <= Times(now.spans[a].pages, pageSize) <
          Times(rec[a].blockCount + 1, rec[a].blockSize) + pageSize
      ensures ok ==> rec[a].blockCount == BlocksIn(sizeClassIndex) && IsUpto(rec[a].Free(), BlocksIn(sizeClassIndex))
      ensures ok ==> forall b :: b in old(repr) && b != rec[a] ==> unchanged(b)
    {
      hide Sound, BackedBy, State.Ok, FreeSet, WatchKept, Allocated, Extends, RecordsAt, AllIdle, Pow2, BytesSame,
        Pages.Ok, PageCount, Summarises, IsUpto, ClassSpan, Times;
      ClassSizes(sizeClassIndex);
      if sizeClassIndex == LARGE_CLASS_SIZE_INDEX {
        ok, a := AllocSpan(requestedSize);
      } else {
        ok, a := AllocSpan(SIZE_CLASS_SPAN_SIZE[sizeClassIndex]);
      }
      if !ok { return; }
      RecordOf(a, old(now), PageCount(SpanBytes(sizeClassIndex, requestedSize), pageSize));
      if sizeClassIndex != LARGE_CLASS_SIZE_INDEX {
        IsClassSpan(sizeClassIndex, requestedSize, now.spans[a].pages, pageSize);
        NoMoreRoom(sizeClassIndex, BlockBytes(sizeClassIndex, requestedSize), BlocksIn(sizeClassIndex),
          now.spans[a].pages, pageSize);
      }
      var span := rec[a];
      IdleBut(rec, repr, now.place.Keys, span);
      if sizeClassIndex == LARGE_CLASS_SIZE_INDEX {
        span.InitializeBlocks(sizeClassIndex, requestedSize, 1);
      } else {
        span.InitializeBlocks(sizeClassIndex, SIZE_CLASSES[sizeClassIndex], SIZE_CLASS_BLOCK_COUNT[sizeClassIndex]);
      }
      IdleAll(rec, repr, now.place.Keys, span);
    }

    lemma {:induction false} RecordOf(a: nat, s: Pages, n: nat)
      requires Valid() && Allocated(s, now, a, n)
      ensures a in rec && rec[a] in repr && rec[a].address == a && a !in now.place && a in now.spans
    {
      hide Pages.Ok, State.Ok, AllIdle;
    }

    /** One store by a client to user memory. */
    method StoreByte(x: nat, v: nat)
      requires Valid() && x in bytes
      modifies this`bytes
      ensures Valid() && bytes == old(bytes)[x := v]
    {
      hide Sound, State.Ok, FreeSet, RecordsAt, AllIdle, Pow2, BackedBy;
      ByteStored(now, meta.Now(), pageMap, bytes, x, v);
      bytes := bytes[x := v];
    }

    /** Start watching pages of spans in use: a thread is about to look them up. */
    ghost method Watch(keys: set<nat>)
      requires Valid() && pageMap != 0 && forall k :: k in keys ==> k in now.table && now.table[k] in now.Used()
      modifies meta`watchedRoot, meta`watched, meta`trace
      ensures Valid() && meta.watched.Keys == keys && meta.trace == [meta.mem]
    {
      hide Sound, BackedBy, State.Ok, FreeSet, RecordsAt, AllIdle, Pow2, ClientOk;
      forall k | k in keys ensures k < KEY_LIMIT { MapThere(k); }
      WatchBacked(now, meta.Now(), pageMap, bytes, spans.Keys, chunkRec.Keys, keys);
      meta.Watch(pageMap, keys);
    }

    /** The kernel's regions are the metadata chunks, the data chunks and the mappings of spans too large
        for a bin: whatever else was mapped has been unmapped. */
    lemma {:induction false} KernelRegions()
      requires Valid()
      ensures meta.mapped.Keys == meta.chunks + DataRegions(now) && meta.chunks !! DataRegions(now)
    {
      hide BackedBy, State.Ok, FreeSet, RecordsAt, AllIdle, Pow2, Pages.Ok, Regions, BytesOk, WatchesUsed;
      MappedExactly(now, meta.mapped, meta.chunks);
    }

    /** A page is in the page map exactly if it lies in a mapped region that holds no metadata. */
    lemma {:induction false} PageMapExact(k: nat)
      requires Valid()
      ensures k in now.table <==> exists b :: InData(now, meta.mapped, meta.chunks, k, b)
    {
      hide BackedBy, State.Ok, FreeSet, RecordsAt, AllIdle, Pow2, Pages.Ok, Regions, BytesOk, WatchesUsed;
      PageMapDomain(now, meta.mapped, meta.chunks, k);
    }

    /** Every metadata object is in use or on the free list of its size. */
    lemma {:induction false} NoMetadataLost(a: nat)
      requires Valid() && a in meta.ext
      ensures a in spans || a in chunkRec || (pageMap != 0 && NodeOf(meta.own, pageMap, a)) ||
        (meta.freeListMap != 0 && NodeOf(meta.own, meta.freeListMap, a)) || a in FreeList(meta.free, meta.ext[a])
    {
      hide Sound, BackedBy, State.Ok, FreeSet, RecordsAt, AllIdle, Pow2;
      NothingLeaks(meta.Now(), pageMap, now.table, spans.Keys, chunkRec.Keys, a);
    }

    /** A lock-free lookup of a watched page, its six loads falling on any memories the arena has been
        in since the page is watched, finds the span that the page belongs to. */
    lemma {:induction false} LockFreeLookup(k: nat, loads: seq<Mem>)
      requires Valid() && k in meta.watched && |loads| == 6 && forall i :: 0 <= i < 6 ==> loads[i] in meta.trace
      ensures k in now.table && now.table[k] in now.Used() && Reader(loads, pageMap, k) == now.table[k]
    {
      hide Sound, State.Ok, FreeSet, RecordsAt, AllIdle, Pow2, BackedBy, Reader;
      LookupFinds(now, meta.Now(), pageMap, bytes, spans.Keys, chunkRec.Keys, k, loads);
    }
  }
}
