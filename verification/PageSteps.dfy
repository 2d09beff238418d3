/** What the steps of the page heap mean for the metadata arena, the page map, the kernel's regions
    and the bytes of user memory, all as values. */
module PageSteps {
  import opened Linear
  import opened Words
  import opened RangeMapSpec
  import opened MetadataState
  import opened Spans
  import opened PageState

  const SPAN_BYTES: nat := 608
  const CHUNK_BYTES: nat := 16

  /** The page heap s is in order and agrees with the kernel's regions, with what readers look up and
      with the bytes of user memory. */
  ghost predicate Sound(s: Pages, m: State, pageMap: nat, bytes: map<nat, nat>) {
    s.Ok() && Regions(s, m.mapped, m.chunks) && WatchesUsed(s, m, pageMap) && BytesOk(s.pageSize, s.table.Keys, bytes)
  }

  /** The same with n more pages mapped from page c on, which the page heap s does not know yet. */
  ghost predicate Opening(s: Pages, m: State, pageMap: nat, bytes: map<nat, nat>, c: nat, n: nat) {
    s.Ok() && NewRegion(s, m, c, n) && WatchesUsed(s, m, pageMap) &&
    BytesOk(s.pageSize, s.table.Keys + Range(c, c + n, 0).Keys, bytes)
  }

  ghost function NoPages(pageSize: nat): Pages {
    Pages(pageSize, map[], map[], seq(MAX_BINNED_PAGES, _ => 0), {}, seq(MAX_BINNED_PAGES, _ => []), map[], map[],
        map[], map[], map[])
  }

  /** Before the first allocation. */
  lemma {:induction false} NothingYet(pageSize: nat, m: State)
    requires pageSize > 0 && m.Ok(NO_KEY) && m.own == map[] && m.shapes == map[] && m.mapped == map[] &&
      m.chunks == {} && m.watched == map[]
    ensures Sound(NoPages(pageSize), m, 0, map[]) && BackedBy(m, 0, map[], {}, {})
    ensures var s := NoPages(pageSize);
      s.Used() == {} && s.pageSize == pageSize && s.spans == map[] && s.table == map[] && s.tiles == map[] &&
      s.bits == {} &&
      s.heads == seq(MAX_BINNED_PAGES, _ => 0) && s.place == map[]
  {
    hide State.Ok;
  }

  lemma {:induction false} NoBits(words: seq<Word>)
    requires forall i :: 0 <= i < |words| ==> words[i] == 0
    ensures FreeSet(words) == {}
  {
    ZeroIsEmpty(0);
  }

  lemma {:induction false} SoundSteady(s: Pages, m: State, m': State, pageMap: nat, bytes: map<nat, nat>)
    requires Sound(s, m, pageMap, bytes) && Steady(m, m')
    ensures Sound(s, m', pageMap, bytes) && WatchKept(m, m')
  {
    hide Pages.Ok, Regions, BytesOk;
    RegionsSteady(s, m, m');
  }

  lemma {:induction false} OpeningSteady(s: Pages, m: State, m': State, pageMap: nat, bytes: map<nat, nat>, c: nat,
          n: nat)
    requires Opening(s, m, pageMap, bytes, c, n) && Steady(m, m')
    ensures Opening(s, m', pageMap, bytes, c, n) && WatchKept(m, m')
  {
    hide Pages.Ok, NewRegion, BytesOk;
    SteadyRegion(s, m, m', c, n);
  }

  /** The kernel maps n more pages. */
  lemma {:induction false} Opened(s: Pages, m: State, m': State, pageMap: nat, bytes: map<nat, nat>, c: nat, n: nat)
    requires Sound(s, m, pageMap, bytes) && m.Ok(NO_KEY) && n > 0 && 4096 <= s.pageSize
    requires Times(c, s.pageSize) !in m.mapped && RegionsOk(m'.mapped)
    requires m' == m.(mapped := m.mapped[Times(c, s.pageSize) := Times(n, s.pageSize)])
    ensures var bytes' := bytes + Range(Times(c, s.pageSize), Times(c, s.pageSize) + Times(n, s.pageSize), 0);
      Opening(s, m', pageMap, bytes', c, n) && BytesSame(s.pageSize, s.table.Keys, bytes, bytes')
  {
    hide Pages.SpansOk, Pages.TableOk, Pages.ChunksOk, Pages.PoolOk, Regions, BytesOk, State.Ok, RegionsOk, BytesSame;
    RegionMapped(m, m', s, c, n);
    WatchesMoved(s, m, m', pageMap);
    BytesGrow(s.pageSize, s.table.Keys, bytes, c, n);
  }

  /** The new pages are one span. */
  lemma {:induction false} OpenedWhole(s: Pages, m: State, pageMap: nat, bytes: map<nat, nat>, c: nat, n: nat, a: nat,
          links: Phys)
    requires Opening(s, m, pageMap, bytes, c, n) && a !in s.spans && a != 0 && BestFit(s, a, n)
    requires n < MAX_BINNED_PAGES ==> n == ChunkPageCount(n, s.pageSize)
    ensures Sound(NewMapping(s, c, n, a, links), m, pageMap, bytes) && Allocated(s, NewMapping(s, c, n, a, links), a, n)
  {
    hide Pages.Ok, Regions, NewMapping, WatchesUsed, BestFit, BytesOk, Range;
    NewFacts(s, c, n, a, links);
    RangeKeys(c, c + n, a);
    NewAllocated(s, c, n, a, links);
    RegionsNew(s, c, n, a, links, m.mapped, m.chunks);
    AllocatedWatches(s, NewMapping(s, c, n, a, links), a, n, m, pageMap);
  }

  /** The new pages are a span in use and a cached one. */
  lemma {:induction false} OpenedCarved(s: Pages, t: Pages, m: State, pageMap: nat, bytes: map<nat, nat>, c: nat,
          n: nat, p: nat, a: nat, r: nat)
    requires Opening(s, m, pageMap, bytes, c, n) && a !in s.spans && a != 0 && r !in s.spans && r != 0 && r != a
    requires 0 < p < n < MAX_BINNED_PAGES && Carved(s, t, c, n, p, a, r) && BestFit(s, a, p) &&
      n == ChunkPageCount(p, s.pageSize)
    ensures |t.pool| == |t.heads| == MAX_BINNED_PAGES && r in t.spans && t.spans[r].pages < MAX_BINNED_PAGES
    ensures Sound(Given(t, r), m, pageMap, bytes) && Allocated(s, Given(t, r), a, p)
  {
    hide Pages.SpansOk, Pages.TableOk, Pages.ChunksOk, Pages.PoolOk, Regions, WatchesUsed, BestFit, Carved, Range,
      BytesOk;
    CarvedPlaced(s, t, m, pageMap, c, n, p, a, r);
  }

  /** A span from the pool. */
  lemma {:induction false} PoolSound(s: Pages, s': Pages, m: State, m': State, pageMap: nat, bytes: map<nat, nat>,
          a: nat, n: nat)
    requires Sound(s, m, pageMap, bytes) && WatchKept(m, m') && Allocated(s, s', a, n) && s'.table.Keys == s.table.Keys
    requires Regions(s', m'.mapped, m'.chunks)
    ensures Sound(s', m', pageMap, bytes)
  {
    hide Pages.Ok, Regions, BytesOk, Allocated;
    WatchesMoved(s, m, m', pageMap);
    AllocatedWatches(s, s', a, n, m', pageMap);
    assert s'.Ok() && s'.pageSize == s.pageSize by { AllocatedParts(s, s', a, n); }
  }

  lemma {:induction false} SoundOk(s: Pages, m: State, pageMap: nat, bytes: map<nat, nat>)
    requires Sound(s, m, pageMap, bytes)
    ensures s.Ok() && |s.pool| == |s.heads| == MAX_BINNED_PAGES && (m.watched != map[] ==> m.watchedRoot == pageMap)
    ensures forall k :: k in m.watched ==> k in s.table && s.table[k] in s.Used()
  {}

  /** An exact fit from the pool. */
  lemma {:induction false} PoolTaken(s: Pages, m: State, pageMap: nat, bytes: map<nat, nat>, n: nat)
    requires Sound(s, m, pageMap, bytes) && n in s.bits
    ensures n < |s.pool| == |s.heads| == MAX_BINNED_PAGES && s.pool[n] != [] && BestFit(s, Last(s.pool[n]), n)
    ensures Sound(Taken(s, n), m, pageMap, bytes) && Allocated(s, Taken(s, n), Last(s.pool[n]), n)
    ensures Taken(s, n).tiles == s.tiles && Taken(s, n).table == s.table
  {
    hide Pages.SpansOk, Pages.TableOk, Pages.ChunksOk, Regions, BytesOk, Allocated, WatchesUsed, Taken;
    var s' := Taken(s, n);
    SoundOk(s, m, pageMap, bytes);
    FoundBestFit(s, n, n) by { NothingBetween(s, n); }
    TakenAllocated(s, n);
    TakenFields(s, n);
    RegionsSame(s, s', m.mapped, m.chunks);
    PoolSound(s, s', m, m, pageMap, bytes, Last(s.pool[n]), n);
  }

  lemma {:induction false} NothingBetween(s: Pages, n: nat)
    ensures forall p :: p in s.bits && n <= p ==> n <= p
  {}

  lemma {:induction false} TakenFields(s: Pages, q: nat)
    requires q < |s.pool| && q < |s.heads| && s.pool[q] != []
    ensures var t := Taken(s, q);
      t.pageSize == s.pageSize && t.spans == s.spans && t.tiles == s.tiles && t.table == s.table && t.home == s.home &&
      t.place == s.place - {Last(s.pool[q])}
  {}

  /** A larger span from the pool, ready to be cut. */
  lemma {:induction false} PoolReady(s: Pages, m: State, pageMap: nat, bytes: map<nat, nat>, q: nat, n: nat)
    requires Sound(s, m, pageMap, bytes) && q in s.bits && n <= q && forall p :: p in s.bits && n <= p ==> q <= p
    ensures s.Ok() && q < |s.pool| == |s.heads| == MAX_BINNED_PAGES && s.pool[q] != []
    ensures var a, t := Last(s.pool[q]), Taken(s, q);
      t.Ok() && a in t.spans && t.spans[a].pages == q && a in t.home && a !in t.place && BestFit(s, a, n) &&
      forall k :: k in m.watched ==> k in t.table && t.table[k] != a
    ensures m.watched != map[] ==> m.watchedRoot == pageMap
  {
    hide Pages.SpansOk, Pages.TableOk, Pages.ChunksOk, Regions, BytesOk, BestFit, Taken;
    SoundOk(s, m, pageMap, bytes);
    FoundBestFit(s, q, n);
    TakenOk(s, q);
    TakenFields(s, q);
  }

  lemma {:induction false} PoolCut(s: Pages, m: State, s': Pages, m': State, pageMap: nat, bytes: map<nat, nat>, q: nat,
          r: nat, n: nat)
    requires Sound(s, m, pageMap, bytes) && Steady(m, m') && q < |s.pool| == |s.heads| == MAX_BINNED_PAGES &&
      s.pool[q] != []
    requires BestFit(s, Last(s.pool[q]), n) && Cut(Taken(s, q), s', Last(s.pool[q]), r, n)
    ensures Sound(s', m', pageMap, bytes) && Allocated(s, s', Last(s.pool[q]), n) && WatchKept(m, m')
    ensures s'.table.Keys == s.table.Keys
  {
    hide Pages.SpansOk, Pages.TableOk, Pages.ChunksOk, Regions, BytesOk, BestFit, Cut, Allocated, WatchesUsed, Taken;
    SoundOk(s, m, pageMap, bytes);
    var t := Taken(s, q);
    TakenSame(s, q);
    CutAllocated(s, q, s', r, n);
    RegionsSteady(s, m, m');
    RegionsSame(s, t, m'.mapped, m'.chunks);
    RegionsCut(t, s', Last(s.pool[q]), r, n, m'.mapped, m'.chunks);
    PoolSound(s, s', m, m', pageMap, bytes, Last(s.pool[q]), n);
  }

  lemma {:induction false} TakenSame(s: Pages, q: nat)
    requires q < |s.pool| && q < |s.heads| && s.pool[q] != []
    ensures SamePlaces(s, Taken(s, q))
  {}

  /** Without a chunk nothing is cached. */
  lemma {:induction false} NoChunks(s: Pages)
    requires s.Ok() && s.tiles == map[]
    ensures s.bits == {}
  {
    hide Pages.TableOk, Pages.ChunksOk, Pages.PoolOk, Pages.SpansOk;
    forall p: nat ensures p !in s.bits { PooledChunk(s, p); }
  }

  lemma {:induction false} PooledChunk(s: Pages, p: nat)
    requires s.Ok()
    ensures p in s.bits ==> s.tiles != map[]
  {
    if p in s.bits {
      assert s.PooledOk(p, 0);
      assert s.home[s.pool[p][0]] in s.tiles;
    }
  }

  /** Bits stand for bins, and without a chunk there are none. */
  lemma {:induction false} BitsBelow(s: Pages, m: State, pageMap: nat, bytes: map<nat, nat>)
    requires Sound(s, m, pageMap, bytes)
    ensures forall p :: p in s.bits ==> p < MAX_BINNED_PAGES
    ensures s.tiles == map[] ==> s.bits == {}
  {
    hide Regions, BytesOk, WatchesUsed;
    if s.tiles == map[] { NoChunks(s); }
  }

  lemma {:induction false} WatchSame(m: State)
    ensures WatchKept(m, m)
  {}

  lemma {:induction false} ExtendsSame<K, V>(m: map<K, V>)
    ensures Extends(m, m)
  {}

  lemma {:induction false} BytesUnchanged(size: nat, pages: set<nat>, bytes: map<nat, nat>)
    ensures BytesSame(size, pages, bytes, bytes)
  {}

  // ---- the first allocation ----

  lemma {:induction false} RootNonZero(m: State, m': State, r: nat)
    requires m.Ok(NO_KEY) && m'.Ok(NO_KEY) && m'.Trie(r) && r !in m.own
    ensures r != 0 && r !in m.mem
  {
    FlmRole(m);
    FlmRole(m');
  }

  lemma {:induction false} RootBacked(m: State, m': State, table: map<nat, nat>, spans: set<nat>, chunks: set<nat>,
          r: nat)
    requires BackedBy(m, 0, table, spans, chunks) && m'.shapes == m.shapes[r := EMPTY] && m'.flm == m.flm
    requires m'.Ok(NO_KEY) && Steady(m, m') && m'.Trie(r) && r != m'.flm && r != 0 && r in m'.shapes &&
      forall k: nat :: m'.Value(r, k) == 0
    requires r !in m.own && m'.own == m.own[r := TrieRoot] && r !in m.mem && m'.mem == m.mem[r := m'.mem[r]]
    ensures BackedBy(m', r, table, spans, chunks)
  {
    hide State.Ok, State.Trie, Steady;
    assert RecordsKept(m, m') by {}
    KeptBacked(m, m', spans, chunks);
  }

  lemma {:induction false} SoundRoot(s: Pages, m: State, m': State, bytes: map<nat, nat>, r: nat)
    requires Sound(s, m, 0, bytes) && s.table == map[] && Steady(m, m')
    ensures Sound(s, m', r, bytes) && WatchKept(m, m')
  {
    hide Pages.Ok, Regions, BytesOk;
    assert m.watched == map[];
    RegionsSteady(s, m, m');
  }

  // ---- giving a span back ----

  ghost function WithoutPages(s: Pages, from: nat, to: nat): Pages {
    s.(table := s.table - Range(from, to, 0).Keys)
  }

  ghost function WithoutSpan(s: Pages, a: nat): Pages {
    s.(spans := s.spans - {a})
  }

  lemma {:induction false} GivenSound(s: Pages, m: State, pageMap: nat, bytes: map<nat, nat>, a: nat)
    requires Sound(s, m, pageMap, bytes) && a in s.Used() && s.spans[a].pages < MAX_BINNED_PAGES
    requires forall k :: k in m.watched && k in s.table ==> s.table[k] != a
    ensures |s.pool| == |s.heads| == MAX_BINNED_PAGES && Sound(Given(s, a), m, pageMap, bytes) &&
      Released(s, Given(s, a), a)
    ensures Given(s, a).tiles == s.tiles && Given(s, a).table == s.table
  {
    hide Pages.TableOk, Pages.ChunksOk, Pages.PoolOk, Regions, BytesOk;
    SoundOk(s, m, pageMap, bytes);
    assert s.SpanOk(a);
    GivenReleased(s, a);
    RegionsSame(s, Given(s, a), m.mapped, m.chunks);
    ReleasedWatches(s, Given(s, a), a, m, pageMap);
  }

  lemma {:induction false} ReleasedWatches(s: Pages, s': Pages, a: nat, m: State, pageMap: nat)
    requires s.Ok() && Released(s, s', a) && WatchesUsed(s, m, pageMap)
    requires forall k :: k in m.watched && k in s.table ==> s.table[k] != a
    ensures WatchesUsed(s', m, pageMap)
  {
    hide Pages.SpansOk, Pages.TableOk, Pages.ChunksOk, Pages.PoolOk, Pages.Used;
    forall k | k in m.watched ensures k in s'.table && s'.table[k] in s'.Used() { UsedPagesStay(s, s', {a}, k); }
  }

  /** The pages and the region of a span too large for a bin. */
  lemma {:induction false} HugeFacts(s: Pages, m: State, pageMap: nat, bytes: map<nat, nat>, a: nat)
    requires Sound(s, m, pageMap, bytes) && a in s.Used() && s.spans[a].pages >= MAX_BINNED_PAGES
    requires forall k :: k in m.watched && k in s.table ==> s.table[k] != a
    ensures a in s.page && a !in s.home && a != 0 && s.pageSize > 0 && s.spans[a].base == Times(s.page[a], s.pageSize)
    ensures Quotient(s.spans[a].base, s.pageSize) == s.page[a] && s.page[a] + s.spans[a].pages <= KEY_LIMIT
    ensures forall k ::
      s.page[a] <= k < s.page[a] + s.spans[a].pages ==> k in s.table && s.table[k] == a && k !in m.watched
    ensures m.watched != map[] ==> m.watchedRoot == pageMap
  {
    hide Pages.ChunksOk, Pages.PoolOk, Regions, BytesOk;
    SoundOk(s, m, pageMap, bytes);
    assert s.SpanOk(a);
    QuotientOf(s.spans[a].base, s.page[a], s.pageSize);
    forall k | s.page[a] <= k < s.page[a] + s.spans[a].pages
      ensures k in s.table && s.table[k] == a
    {
      assert s.Covers(a, k);
    }
  }

  /** The region of such a span can be unmapped, ... */
  lemma {:induction false} HugeRegion(s: Pages, m: State, m': State, pageMap: nat, bytes: map<nat, nat>, a: nat)
    requires Sound(s, m, pageMap, bytes) && Steady(m, m') && a in s.Used() && a !in s.home && a in s.page
    ensures var b := Times(s.page[a], s.pageSize);
      b in m'.mapped && m'.mapped[b] == Times(s.spans[a].pages, s.pageSize) && b !in m'.chunks
  {
    hide Pages.SpansOk, Pages.TableOk, Pages.ChunksOk, Pages.PoolOk, Regions, BytesOk, Unmapping;
    SoundOk(s, m, pageMap, bytes);
    RegionsSteady(s, m, m');
    RegionsDrop(s, a, m'.mapped, m'.chunks);
  }

  /** ... and then the page heap is in order without the span. */
  lemma {:induction false} Closed(s: Pages, m: State, m': State, pageMap: nat, bytes: map<nat, nat>, a: nat)
    requires Sound(s, m, pageMap, bytes) && a in s.Used() && a !in s.home && a in s.page
    requires m' == m.(mapped := m.mapped - {Times(s.page[a], s.pageSize)})
    requires forall k :: k in m.watched && k in s.table ==> s.table[k] != a
    ensures var b := Times(s.page[a], s.pageSize);
      var bytes' := bytes - Range(b, b + Times(s.spans[a].pages, s.pageSize), 0).Keys;
      Sound(Unmapping(s, a), m', pageMap, bytes') && BytesSame(s.pageSize, Unmapping(s, a).table.Keys, bytes, bytes')
    ensures Released(s, Unmapping(s, a), a)
  {
    hide Pages.SpansOk, Pages.TableOk, Pages.ChunksOk, Pages.PoolOk, Regions, BytesOk, BytesSame, Unmapping;
    SoundOk(s, m, pageMap, bytes);
    PageKeys(s);
    UnmappingReleased(s, a);
    RegionsDrop(s, a, m.mapped, m.chunks);
    ReleasedWatches(s, Unmapping(s, a), a, m, pageMap);
    UnmappingFields(s, a);
    BytesShrink(s.pageSize, s.table.Keys, bytes, s.page[a], s.spans[a].pages);
  }

  lemma {:induction false} UnmappingFields(s: Pages, a: nat)
    requires a in s.spans && a in s.page
    ensures var t := Unmapping(s, a);
      t.table.Keys == s.table.Keys - Range(s.page[a], s.page[a] + s.spans[a].pages, 0).Keys &&
      t.table == s.table - Range(s.page[a], s.page[a] + s.spans[a].pages, 0).Keys &&
      t.spans == s.spans - {a} && t.pageSize == s.pageSize && t.heads == s.heads && t.bits == s.bits &&
      t.tiles == s.tiles && t.place == s.place
  {
    RangeKeys(s.page[a], s.page[a] + s.spans[a].pages, a);
  }

  lemma {:induction false} UnmapBacked(m: State, m': State, pageMap: nat, table: map<nat, nat>, spans: set<nat>,
          chunks: set<nat>, from: nat, to: nat)
    requires pageMap != 0 && BackedBy(m, pageMap, table, spans, chunks) && RangeStep(m, m', pageMap, from, to, 0)
    ensures BackedBy(m', pageMap, table - Range(from, to, 0).Keys, spans, chunks) && Steady(m, m')
  {
    hide ClientOk, Steady, RecordsKept, RecordOk, NoOthers, NothingNew;
    KeptBacked(m, m', spans, chunks);
    NoOthersKept(m, m', pageMap, spans, chunks);
  }

  /** The keys to unmap are mapped. */
  lemma {:induction false} KeysHeld(m: State, pageMap: nat, table: map<nat, nat>, spans: set<nat>, chunks: set<nat>,
          from: nat, to: nat, a: nat)
    requires pageMap != 0 && a != 0 && BackedBy(m, pageMap, table, spans, chunks) && to <= KEY_LIMIT
    requires forall k :: from <= k < to ==> k in table && table[k] == a
    ensures pageMap in m.shapes && forall k: nat :: from <= k < to ==> m.Value(pageMap, k) != 0
  {
    hide ClientOk;
    forall k: nat | from <= k < to ensures m.Value(pageMap, k) != 0 { assert m.Value(pageMap, k) == At(table, k); }
  }

  /** Freeing a span record leaves the page map and the other records. */
  lemma {:induction false} FreedBacked(m: State, m': State, pageMap: nat, table: map<nat, nat>, spans: set<nat>,
          chunks: set<nat>, a: nat)
    requires pageMap != 0 && BackedBy(m, pageMap, table, spans, chunks) && a in spans && Freed(m, m', a, SPAN_BYTES)
    ensures BackedBy(m', pageMap, table, spans - {a}, chunks) && Steady(m, m')
  {
    hide ArenaOk, RegionsOk, CoreOk, SizesOk, WatchOk, Kept, ListsPoppedBut, TrieOk, Counted, NoOthers, RolesAfterFree;
    NoOthersFreed(m, m', SPAN_BYTES, pageMap, spans, chunks, a);
    assert RecordOk(m, a, SPAN_BYTES);
    RootRole(m.mem, m.own, pageMap, m.shapes[pageMap]);
    FreedFrame(m, m', pageMap, a, SPAN_BYTES);
    TrieFrame(m.mem, m.own, m'.mem, m'.own, pageMap, m.shapes[pageMap]);
    forall b | b in spans - {a} ensures RecordOk(m', b, SPAN_BYTES) { assert RecordOk(m, b, SPAN_BYTES); }
    forall d | d in chunks ensures RecordOk(m', d, CHUNK_BYTES) { assert RecordOk(m, d, CHUNK_BYTES); }
    forall k: nat | k < KEY_LIMIT
      ensures m'.Value(pageMap, k) == At(table, k)
    {
      assert m.Value(pageMap, k) == At(table, k);
    }
  }

  lemma {:induction false} FreedHead(m: State, m': State, a: nat, size: nat)
    requires Freed(m, m', a, size)
    ensures Head(m'.free, size) == a
  {}

  lemma {:induction false} RecordReady(m: State, pageMap: nat, table: map<nat, nat>, spans: set<nat>, chunks: set<nat>,
          a: nat)
    requires BackedBy(m, pageMap, table, spans, chunks) && a in spans
    ensures m.Ok(NO_KEY) && a in m.own && m.own[a] == Record && a in m.ext && m.ext[a] == SPAN_BYTES
  {
    assert RecordOk(m, a, SPAN_BYTES);
  }

  /** A page in the page map has been mapped, so there is a page map. */
  lemma {:induction false} SomePages(s: Pages, m: State, pageMap: nat, bytes: map<nat, nat>, spans: set<nat>,
          chunks: set<nat>, a: nat)
    requires Sound(s, m, pageMap, bytes) && BackedBy(m, pageMap, s.table, spans, chunks) && a in s.spans
    ensures pageMap != 0 && s.spans[a].pages > 0
  {
    assert s.SpanOk(a);
    assert s.Covers(a, s.page[a]);
  }

  lemma {:induction false} WithoutFields(s: Pages, from: nat, to: nat, a: nat)
    ensures var t := WithoutPages(s, from, to);
      t.spans == s.spans && t.pageSize == s.pageSize && t.heads == s.heads && t.bits == s.bits && t.place == s.place &&
      t.table == s.table - Range(from, to, 0).Keys
    ensures var t := WithoutSpan(WithoutPages(s, from, to), a);
      t.spans == s.spans - {a} && t.pageSize == s.pageSize && t.heads == s.heads && t.bits == s.bits &&
      t.place == s.place && t.table == s.table - Range(from, to, 0).Keys
  {}

  lemma {:induction false} FewerRegions(mapped: map<nat, nat>, b: nat)
    requires RegionsOk(mapped)
    ensures RegionsOk(mapped - {b})
  {
    var mapped' := mapped - {b};
    forall b, c | b in mapped' && c in mapped' && b != c ensures Apart(b, mapped'[b], c, mapped'[c]) {
      assert Apart(b, mapped[b], c, mapped[c]);
    }
  }

  lemma {:induction false} ByteStored(s: Pages, m: State, pageMap: nat, bytes: map<nat, nat>, x: nat, v: nat)
    requires Sound(s, m, pageMap, bytes) && x in bytes
    ensures Sound(s, m, pageMap, bytes[x := v])
  {
    hide Pages.Ok, Regions, WatchesUsed;
  }

  // ---- lock-free lookups ----

  /** What a watched key maps to is what it mapped to when it began to be watched. */
  lemma {:induction false} WatchedValue(m: State, pageMap: nat, table: map<nat, nat>, spans: set<nat>, chunks: set<nat>,
          k: nat)
    requires BackedBy(m, pageMap, table, spans, chunks) && k in m.watched && k in table && m.watchedRoot == pageMap
    ensures m.watched[k].value == table[k]
  {
    hide ArenaOk, RegionsOk, CoreOk, SizesOk, Counted;
    assert Holds(m.mem, m.watchedRoot, k, m.watched[k]) && WatchRole(m.own, m.watchedRoot, k, m.watched[k]);
    assert m.Value(pageMap, k) == At(table, k);
    TrieFollows(m.mem, m.own, pageMap, m.shapes[pageMap], k, m.watched[k]);
  }

  lemma {:induction false} TrieFollows(mem: Mem, own: map<nat, Role>, root: nat, sh: Shape, k: nat, path: Path)
    requires TrieOk(mem, own, root, sh) && Holds(mem, root, k, path)
    ensures RangeMapSpec.Value(mem, sh, k) == path.value
  {
    assert Top(k) in sh.l2 ==> MiddleOk(mem, own, root, sh, Top(k));
    assert HasPath(sh, k) ==> LeafOk(mem, own, root, sh, (Top(k), Mid(k)));
    assert mem[root][Top(k)] == At(sh.l2, Top(k));
  }

  lemma {:induction false} LookupFinds(s: Pages, m: State, pageMap: nat, bytes: map<nat, nat>, spans: set<nat>,
          chunks: set<nat>, k: nat, loads: seq<Mem>)
    requires Sound(s, m, pageMap, bytes) && BackedBy(m, pageMap, s.table, spans, chunks) && k in m.watched
    requires |loads| == 6 && forall i :: 0 <= i < 6 ==> loads[i] in m.trace
    ensures k in s.table && s.table[k] in s.Used() && Reader(loads, pageMap, k) == s.table[k]
  {
    hide Pages.Ok, Regions, BytesOk, ArenaOk, RegionsOk, CoreOk, SizesOk, Counted, Reader, Holding, ClientOk;
    BackedOk(m, pageMap, s.table, spans, chunks);
    WatchedValue(m, pageMap, s.table, spans, chunks, k);
    ReaderFinds(loads, pageMap, m.watched, k);
  }

  // ---- metadata and user memory ----

  /** A page in the page map lies in a mapped region that is not a metadata chunk. */
  lemma {:induction false} PageMapped(s: Pages, m: State, pageMap: nat, bytes: map<nat, nat>, k: nat, x: nat)
      returns (b: nat)
    requires Sound(s, m, pageMap, bytes) && k in s.table && InPage(s.pageSize, k, x)
    ensures b in m.mapped && b !in m.chunks && b <= x < b + m.mapped[b]
  {
    hide Pages.ChunksOk, Pages.PoolOk, BytesOk, WatchesUsed;
    var a := s.table[k];
    assert s.Covers(a, k);
    SpanInRegion(s, a);
    assert RegionOk(s, m.mapped, m.chunks, a);
    b := Times(RegionStart(s, a), s.pageSize);
    PageInRegion(s.pageSize, k, x, RegionStart(s, a), RegionPages(s, a));
  }

  /** The region around an address in a metadata object is a metadata chunk. */
  lemma {:induction false} MetadataRegion(m: State, a: nat, x: nat, b: nat)
    requires m.Ok(NO_KEY) && a in m.ext && a <= x < a + m.ext[a] && b in m.mapped && b <= x < b + m.mapped[b]
    ensures b in m.chunks
  {
    hide CoreOk, SizesOk, WatchOk;
    assert InChunk(m.ext, m.home, m.chunks, m.arena, m.cur, a);
    assert b == m.home[a] || Apart(b, m.mapped[b], m.home[a], m.mapped[m.home[a]]);
  }

  /** Metadata objects never share a page with user data. */
  lemma {:induction false} MetadataApart(s: Pages, m: State, pageMap: nat, bytes: map<nat, nat>, a: nat, x: nat)
    requires Sound(s, m, pageMap, bytes) && m.Ok(NO_KEY) && a in m.ext && a <= x < a + m.ext[a] && s.pageSize > 0
    ensures Quotient(x, s.pageSize) !in s.table
  {
    hide Pages.Ok, BytesOk, WatchesUsed, Regions, State.Ok;
    var k := Quotient(x, s.pageSize);
    QuotientBounds(x, s.pageSize);
    if k in s.table {
      var b := PageMapped(s, m, pageMap, bytes, k, x);
      MetadataRegion(m, a, x, b);
      assert false;
    }
  }

  // ---- what is handed back, and that nothing is lost ----

  /** Of the kernel's regions, those of m but the one at b remain, besides new metadata chunks. */
  ghost predicate RegionGone(m: State, m': State, b: nat) {
    m.chunks <= m'.chunks && m'.mapped.Keys == m.mapped.Keys - {b} + (m'.chunks - m.chunks)
  }

  lemma {:induction false} RegionDropped(s: Pages, m: State, m1: State, m2: State, pageMap: nat, bytes: map<nat, nat>,
          b: nat)
    requires Sound(s, m, pageMap, bytes) && Steady(m, m1) && b !in m1.chunks
    requires m2 == m1.(mapped := m1.mapped - {b})
    ensures RegionGone(m, m2, b) && WatchKept(m, m2)
  {
    hide Pages.Ok, BytesOk, WatchesUsed;
    forall x ensures x in m2.mapped <==> (x in m.mapped && x != b) || (x in m2.chunks && x !in m.chunks) {}
  }

  lemma {:induction false} RegionStaysGone(s: Pages, m: State, m2: State, m3: State, pageMap: nat, bytes: map<nat, nat>,
          b: nat)
    requires Sound(s, m2, pageMap, bytes) && Steady(m2, m3) && RegionGone(m, m2, b)
    ensures RegionGone(m, m3, b)
  {
    hide Pages.Ok, BytesOk, WatchesUsed;
    forall x ensures x in m3.mapped <==> (x in m.mapped && x != b) || (x in m3.chunks && x !in m.chunks) {}
  }

  /** Span a has become the head of the bin of its page count. */
  ghost predicate BackInBin(s: Pages, s': Pages, a: nat) {
    a in s.spans && s.spans[a].pages < |s.pool| && |s.heads| == |s.pool| && s' == Given(s, a)
  }

  /** The pages and the record of span a are gone. */
  ghost predicate Dropped(s: Pages, s': Pages, a: nat) {
    a in s.spans && a in s.page && s' == Unmapping(s, a)
  }

  /** Every object the metadata arena has ever handed out is a record, a node of the page map or of the
      free-list map, or on the free list of its size. */
  lemma {:induction false} NothingLeaks(m: State, pageMap: nat, table: map<nat, nat>, spans: set<nat>, chunks: set<nat>,
          a: nat)
    requires BackedBy(m, pageMap, table, spans, chunks) && a in m.ext
    ensures a in spans || a in chunks || (pageMap != 0 && NodeOf(m.own, pageMap, a)) ||
      (m.flm != 0 && NodeOf(m.own, m.flm, a)) || a in m.List(m.ext[a])
  {
    hide RegionsOk, ArenaOk, WatchOk, HeadsAgree, TrieOk, Counted;
    BackedOk(m, pageMap, table, spans, chunks);
    assert a in m.own;
    if m.own[a].Cached? {
      assert CachedOk(m.mem, m.own, m.free, m.own[a].size, m.own[a].pos);
    }
  }

  // ---- watching pages ----

  /** Pages of spans in use may be watched; this changes what is watched, and nothing else. */
  lemma {:induction false} WatchBacked(s: Pages, m: State, pageMap: nat, bytes: map<nat, nat>, spans: set<nat>,
          chunks: set<nat>, keys: set<nat>)
    requires BackedBy(m, pageMap, s.table, spans, chunks) && Sound(s, m, pageMap, bytes) && pageMap != 0
    requires forall k :: k in keys ==> 0 <= k < KEY_LIMIT && k in s.table && s.table[k] in s.Used()
    ensures ClientOk(m, pageMap) && forall k :: k in keys ==> m.Value(pageMap, k) != 0
    ensures var m' := WatchFrom(m, pageMap, keys);
      BackedBy(m', pageMap, s.table, spans, chunks) && Sound(s, m', pageMap, bytes) && m'.watched.Keys == keys
  {
    hide ArenaOk, RegionsOk, CoreOk, SizesOk, TrieOk, Counted, WatchOk, Pages.TableOk, Pages.ChunksOk, Pages.PoolOk,
      Regions, BytesOk, PathOf;
    forall k | k in keys ensures m.Value(pageMap, k) != 0 { assert m.Value(pageMap, k) == At(s.table, k); }
    WatchStarted(m, pageMap, keys);
    var m' := WatchFrom(m, pageMap, keys);
    forall a | a in spans ensures RecordOk(m', a, SPAN_BYTES) { assert RecordOk(m, a, SPAN_BYTES); }
    forall a | a in chunks ensures RecordOk(m', a, CHUNK_BYTES) { assert RecordOk(m, a, CHUNK_BYTES); }
    forall k: nat | k < KEY_LIMIT
      ensures m'.Value(pageMap, k) == At(s.table, k)
    {
      assert m.Value(pageMap, k) == At(s.table, k);
    }
  }

  // ---- page counts ----

  /** The number of pages that hold size bytes. */
  ghost function PageCount(size: nat, pageSize: nat): nat
    requires pageSize > 0
  {
    Quotient(size + pageSize - 1, pageSize)
  }

  /** round_up_page(size) >> PAGE_SHIFT is the least number of pages that hold size bytes. */
  lemma {:induction false} RoundUpPage(size: nat, shift: nat)
    requires size > 0
    ensures var p := Pow2(shift); var n := Quotient(AndNot(size + (p - 1), p - 1), p);
      n == PageCount(size, p) && 0 < n && Times(n - 1, p) < size <= Times(n, p)
  {
    var p := Pow2(shift);
    var x := size + (p - 1);
    AndNotMask(x, shift);
    QuotientIsDivision(x, p);
    DivMod(x, p);
    var q, r := x / p, x % p;
    TimesIsProduct(q, p);
    QuotientOf(x - r, q, p);
    assert q > 0;
    TimesGap(q - 1, q, p);
    QuotientBounds(x, p);
  }

  lemma {:induction false} AllocatedParts(s: Pages, s': Pages, a: nat, n: nat)
    requires Allocated(s, s', a, n)
    ensures s'.Ok() && s'.pageSize == s.pageSize
  {}

  /** What the allocation of span a means for the chunks and the pool, without the names used to prove it. */
  lemma {:induction false} AllocationMeans(s: Pages, s': Pages, a: nat, n: nat)
    requires Allocated(s, s', a, n) && s.pageSize > 0
    ensures a in s'.spans && a in s'.page && s'.spans[a].pages == n
    ensures forall b :: b in s.place && b in s.spans && n <= s.spans[b].pages && n < MAX_BINNED_PAGES ==>
      a in s.place && a in s.spans && n <= s.spans[a].pages <= s.spans[b].pages &&
      s.spans[a].pages < |s.heads| && s.heads[s.spans[a].pages] == a
    ensures a in s.place || n >= MAX_BINNED_PAGES ==> s'.size == s.size
    ensures a !in s.place && n < MAX_BINNED_PAGES ==>
      var c := s'.page[a];
      c !in s.size && c in s'.size && s'.size == s.size[c := s'.size[c]] && n <= s'.size[c] &&
      Times(s'.size[c] + 1, s.pageSize) > 0x200_0000 && (Times(s'.size[c], s.pageSize) > 0x200_0000 ==> s'.size[c] == n)
  {
    hide Pages.Ok, SameUsed, PoolAfter, Times, ChunkPageCount, Pages.Used;
    ChunkSize(n, s.pageSize);
  }

  /** PageCount without its name. */
  lemma {:induction false} PageCountMeans(size: nat, pageSize: nat)
    requires pageSize > 0 && size > 0
    ensures var n := PageCount(size, pageSize); 0 < n && Times(n - 1, pageSize) < size <= Times(n, pageSize)
  {
    var n := PageCount(size, pageSize);
    QuotientBounds(size + pageSize - 1, pageSize);
    assert n > 0;
    TimesGap(n - 1, n, pageSize);
  }

  lemma {:induction false} NotCached(s: Pages, a: nat)
    requires s.Ok() && a !in s.spans
    ensures a !in s.place
  {
    hide Pages.SpansOk, Pages.TableOk, Pages.ChunksOk;
    assert a !in s.place || s.PooledOk(s.place[a].0, s.place[a].1);
  }

  // ---- single writes ----

  ghost function WithSpan(s: Pages, a: nat, x: Phys): Pages {
    s.(spans := s.spans[a := x])
  }

  ghost function WithPages(s: Pages, from: nat, to: nat, a: nat): Pages {
    s.(table := s.table + Range(from, to, a))
  }

  lemma {:induction false} SetTwice(s: Pages, a: nat, x: Phys, y: Phys, from: nat, to: nat)
    ensures WithSpan(WithPages(WithSpan(s, a, x), from, to, a), a, y) == WithPages(WithSpan(s, a, y), from, to, a)
  {
    hide Range;
    assert s.spans[a := x][a := y] == s.spans[a := y];
  }

  lemma {:induction false} SetAgain(s: Pages, a: nat, x: Phys, y: Phys)
    ensures WithSpan(WithSpan(s, a, x), a, y) == WithSpan(s, a, y)
  {
    assert s.spans[a := x][a := y] == s.spans[a := y];
  }

  lemma {:induction false} SpanFields(s: Pages, a: nat, x: Phys)
    ensures var t := WithSpan(s, a, x);
      t.spans == s.spans[a := x] && t.pageSize == s.pageSize && t.table == s.table && t.heads == s.heads &&
      t.bits == s.bits && t.place == s.place
  {}

  lemma {:induction false} SizeKept(s: Pages, a: nat, x: Phys, from: nat, to: nat)
    ensures WithPages(WithSpan(s, a, x), from, to, a).pageSize == s.pageSize
    ensures WithPages(WithSpan(s, a, x), from, to, a).spans == s.spans[a := x]
  {
    hide Range;
  }

  /** Once its pages are mapped, only the books are missing for a new span. */
  lemma {:induction false} WholeIsNew(s: Pages, c: nat, n: nat, a: nat, links: Phys, t: Pages)
    requires links.base == Times(c, s.pageSize) && links.pages == n &&
      (n < MAX_BINNED_PAGES ==> links.next == 0 && links.prev == 0)
    requires t == WithPages(WithSpan(s, a, links), c, c + n, a)
    ensures var s' := NewMapping(s, c, n, a, links);
      s'.pageSize == t.pageSize && s'.spans == t.spans && s'.table == t.table && s'.heads == t.heads &&
      s'.bits == t.bits && s'.place == t.place &&
      (s'.tiles == s.tiles || n < MAX_BINNED_PAGES)
  {
    hide Range, Times;
    if n < MAX_BINNED_PAGES {
      assert links == Phys(0, 0, links.bin, Times(c, s.pageSize), n);
    } else {
      assert links == links.(base := Times(c, s.pageSize), pages := n);
    }
  }

  /** A new chunk's pages mapped to span a and, from page c + p on, to span r. */
  ghost function TwoPlaced(s: Pages, a: nat, x: Phys, r: nat, y: Phys, c: nat, p: nat, n: nat): Pages {
    WithPages(WithSpan(WithPages(WithSpan(s, a, x), c, c + p, a), r, y), c + p, c + n, r)
  }

  lemma {:induction false} CarvedRecord(s: Pages, a: nat, x: Phys, r: nat, y: Phys, c: nat, p: nat, n: nat)
    requires p <= n && a != r
    ensures var t := WithPages(WithSpan(WithPages(WithSpan(s, a, x), c, c + p, a), r, y), c + p, c + p + (n - p), r);
      t == TwoPlaced(s, a, x, r, y, c, p, n) && t.spans == s.spans[a := x][r := y] && t.pageSize == s.pageSize
  {
    hide Range;
  }

  ghost function BooksCarved(t: Pages, s: Pages, a: nat, r: nat, c: nat, p: nat, n: nat): Pages {
    t.(page := s.page[a := c][r := c + p], home := s.home[a := c][r := c], tiles := s.tiles[c := [a, r]],
        size := s.size[c := n])
  }

  lemma {:induction false} IsCarved(s: Pages, t: Pages, c: nat, n: nat, p: nat, a: nat, r: nat, x: Phys, y: Phys)
    requires p <= n && a != r && x == Phys(0, 0, x.bin, Times(c, s.pageSize), p)
    requires y == Phys(0, a, y.bin, Times(c, s.pageSize) + Times(p, s.pageSize), n - p)
    requires t == BooksCarved(WithSpan(TwoPlaced(s, a, x, r, y, c, p, n), a, x.(next := r)), s, a, r, c, p, n)
    ensures Carved(s, t, c, n, p, a, r)
    ensures var t0 := WithSpan(TwoPlaced(s, a, x, r, y, c, p, n), a, x.(next := r));
      t.pageSize == t0.pageSize && t.spans == t0.spans && t.table == t0.table && t.heads == t0.heads &&
      t.bits == t0.bits && t.tiles != map[] && t.place == s.place == t0.place
  {
    hide Range, Times;
    assert s.spans[a := x][r := y][a := x.(next := r)] == s.spans[a := x.(next := r)][r := y];
    assert c in t.tiles;
  }

  // ---- a split, step by step ----

  /** The links of a split are in place. */
  ghost function Linked(s: Pages, a: nat, i: nat, r: nat, p: nat, g: nat): Pages
    requires CanSplit(s, a, i, r, p)
  {
    s.(spans := SplitSpans(s, a, r, p, g))
  }

  /** The split is complete but for the bin of the new span. */
  ghost predicate SplitDone(s: Pages, a: nat, i: nat, r: nat, p: nat, g: nat, t: Pages) {
    CanSplit(s, a, i, r, p) && t == Split(s, a, i, r, p, g)
  }

  ghost function Booked(s: Pages, a: nat, i: nat, r: nat, p: nat, g: nat): (t: Pages)
    requires CanSplit(s, a, i, r, p)
    ensures SplitDone(s, a, i, r, p, g, t)
    ensures var t0 := WithPages(Linked(s, a, i, r, p, g), s.page[a] + p, s.page[a] + s.spans[a].pages, r);
      t.pageSize == t0.pageSize && t.spans == t0.spans && t.table == t0.table && t.heads == t0.heads &&
      t.bits == t0.bits && t.place == s.place == t0.place
  {
    Split(s, a, i, r, p, g)
  }

  /** A chunk carved into a span in use and a cached one is in order. */
  lemma {:induction false} CarvedPlaced(s: Pages, t: Pages, m: State, pageMap: nat, c: nat, n: nat, p: nat, a: nat,
          r: nat)
    requires s.Ok() && NewRegion(s, m, c, n) && a !in s.spans && a != 0 && r !in s.spans && r != 0 && r != a
    requires 0 < p < n < MAX_BINNED_PAGES && Carved(s, t, c, n, p, a, r) && BestFit(s, a, p) &&
      WatchesUsed(s, m, pageMap)
    requires n == ChunkPageCount(p, s.pageSize)
    ensures |t.pool| == |t.heads| == MAX_BINNED_PAGES && r in t.spans && t.spans[r].pages < MAX_BINNED_PAGES
    ensures Allocated(s, Given(t, r), a, p) && Given(t, r).Ok() && Regions(Given(t, r), m.mapped, m.chunks)
    ensures WatchesUsed(Given(t, r), m, pageMap) && t.table.Keys == s.table.Keys + Range(c, c + n, 0).Keys
  {
    hide Pages.SpansOk, Pages.TableOk, Pages.ChunksOk, Pages.PoolOk, Regions, WatchesUsed, BestFit, Given, Carved,
      Range;
    NewNames(s, c, n, a);
    CarvedAllocated(s, t, c, n, p, a, r);
    CarvedKeys(s, t, c, n, p, a, r);
    RegionsCarved(s, t, c, n, p, a, r, m.mapped, m.chunks);
    GivenSame(t, r);
    RegionsSame(t, Given(t, r), m.mapped, m.chunks);
    AllocatedWatches(s, Given(t, r), a, p, m, pageMap);
  }

  lemma {:induction false} CarvedKeys(s: Pages, t: Pages, c: nat, n: nat, p: nat, a: nat, r: nat)
    requires CanMap(s, c, n, a) && r !in s.spans && p <= n && Carved(s, t, c, n, p, a, r)
    ensures t.table.Keys == s.table.Keys + Range(c, c + n, 0).Keys && t.pool == s.pool && t.heads == s.heads
    ensures r !in s.home && |s.pool| == |s.heads| == MAX_BINNED_PAGES
  {}

  lemma {:induction false} GivenSame(s: Pages, a: nat)
    requires a in s.spans && s.spans[a].pages < |s.pool| && |s.heads| == |s.pool|
    ensures SamePlaces(s, Given(s, a))
  {}

  lemma {:induction false} ChunkPages(pageSize: nat)
    requires pageSize >= 4096
    ensures Quotient(DATA_CHUNK_SIZE, pageSize) < MAX_BINNED_PAGES
  {
    hide Quotient, Times;
    var q := Quotient(DATA_CHUNK_SIZE, pageSize);
    QuotientBounds(DATA_CHUNK_SIZE, pageSize);
    TimesIsProduct(MAX_BINNED_PAGES, 4096);
    TimesWider(MAX_BINNED_PAGES, 4096, pageSize);
    if q >= MAX_BINNED_PAGES { TimesMono(MAX_BINNED_PAGES, q, pageSize); }
  }

  lemma {:induction false} ChunkBacked(m: State, m': State, pageMap: nat, table: map<nat, nat>, spans: set<nat>,
          chunks: set<nat>, d: nat)
    requires pageMap != 0 && BackedBy(m, pageMap, table, spans, chunks) && Handed(m, m', CHUNK_BYTES, d)
    ensures BackedBy(m', pageMap, table, spans, chunks + {d}) && d !in chunks && d != 0 && Steady(m, m')
  {
    hide ArenaOk, RegionsOk, CoreOk, SizesOk, TrieOk, Counted, WatchOk, Untouched, Handed, NoOthers;
    NoOthersHanded(m, m', CHUNK_BYTES, pageMap, spans, chunks, d);
    ClientAlloc(m, m', pageMap, CHUNK_BYTES, d);
    AllocRecords(m, m', CHUNK_BYTES, d);
    HandedSteady(m, m', CHUNK_BYTES, d);
    KeptBacked(m, m', spans, chunks);
  }

  lemma {:induction false} RegionsSteady(s: Pages, m: State, m': State)
    requires Regions(s, m.mapped, m.chunks) && Steady(m, m')
    ensures Regions(s, m'.mapped, m'.chunks) && WatchKept(m, m')
  {
    hide Regions;
    RegionsGrow(s, m.mapped, m.chunks, m'.mapped, m'.chunks);
  }

  lemma {:induction false} SteadyRegion(s: Pages, m: State, m': State, c: nat, n: nat)
    requires NewRegion(s, m, c, n) && Steady(m, m')
    ensures NewRegion(s, m', c, n) && WatchKept(m, m')
  {
    hide Regions;
    var b := Times(c, s.pageSize);
    RegionsGrow(s, m.mapped - {b}, m.chunks, m'.mapped - {b}, m'.chunks);
  }

  lemma {:induction false} WatchesMoved(s: Pages, m: State, m': State, pageMap: nat)
    requires WatchesUsed(s, m, pageMap) && WatchKept(m, m')
    ensures WatchesUsed(s, m', pageMap)
  {}

  lemma {:induction false} WatchTwice(m: State, m1: State, m2: State)
    requires WatchKept(m, m1) && WatchKept(m1, m2)
    ensures WatchKept(m, m2)
  {}

  /** The new pages have keys the page map can hold, and no reader looks them up. */
  lemma {:induction false} RegionFacts(s: Pages, m: State, pageMap: nat, bytes: map<nat, nat>, c: nat, n: nat)
    requires Opening(s, m, pageMap, bytes, c, n)
    ensures c + n <= KEY_LIMIT
    ensures m.watched != map[] ==> m.watchedRoot == pageMap
    ensures forall k :: c <= k < c + n ==> k !in m.watched
  {}

  lemma {:induction false} OpeningOk(s: Pages, m: State, pageMap: nat, bytes: map<nat, nat>, c: nat, n: nat)
    requires Opening(s, m, pageMap, bytes, c, n)
    ensures s.Ok()
  {}

  lemma {:induction false} ExtendsTwice<K, V>(m: map<K, V>, m1: map<K, V>, m2: map<K, V>)
    requires Extends(m, m1) && Extends(m1, m2)
    ensures Extends(m, m2)
  {}

  lemma {:induction false} HugeFits(s: Pages, a: nat, n: nat)
    requires n >= MAX_BINNED_PAGES
    ensures BestFit(s, a, n)
  {}

  lemma {:induction false} RangeKeys(from: nat, to: nat, v: nat)
    ensures Range(from, to, v).Keys == Range(from, to, 0).Keys
  {}

  /** Pages that readers look up stay pages of spans in use. */
  lemma {:induction false} AllocatedWatches(s: Pages, s': Pages, a: nat, n: nat, m: State, pageMap: nat)
    requires s.Ok() && Allocated(s, s', a, n) && WatchesUsed(s, m, pageMap)
    ensures WatchesUsed(s', m, pageMap)
  {
    hide Pages.SpansOk, Pages.TableOk, Pages.ChunksOk, Pages.PoolOk, Pages.Used;
    forall k | k in m.watched ensures k in s'.table && s'.table[k] in s'.Used() { UsedPagesStay(s, s', {}, k); }
  }

  /** n pages from page c on have just been mapped, for the page heap s. */
  ghost predicate NewRegion(s: Pages, m: State, c: nat, n: nat) {
    0 < c && 0 < n && c + n <= KEY_LIMIT && (forall k :: c <= k < c + n ==> k !in s.table) &&
    Regions(s, m.mapped - {Times(c, s.pageSize)}, m.chunks) &&
    Times(c, s.pageSize) in m.mapped && m.mapped[Times(c, s.pageSize)] == Times(n, s.pageSize) &&
    Times(c, s.pageSize) !in m.chunks
  }

  /** A lock-free reader has seen nothing but memories in which watched paths hold. */
  ghost predicate WatchKept(m: State, m': State) {
    m'.watched == m.watched && m'.watchedRoot == m.watchedRoot && m.trace <= m'.trace
  }

  lemma {:induction false} TimesPositive(n: nat, d: nat)
    requires n > 0 && d > 0
    ensures Times(n, d) > 0
  {}

  lemma {:induction false} RegionMapped(m: State, m': State, s: Pages, c: nat, n: nat)
    requires m.Ok(NO_KEY) && s.Ok() && n > 0 && 4096 <= s.pageSize && Regions(s, m.mapped, m.chunks)
    requires Times(c, s.pageSize) !in m.mapped && RegionsOk(m'.mapped)
    requires m' == m.(mapped := m.mapped[Times(c, s.pageSize) := Times(n, s.pageSize)])
    ensures NewRegion(s, m', c, n)
  {
    hide Pages.SpansOk, Pages.TableOk, Pages.ChunksOk, Pages.PoolOk, State.Ok, Regions, RegionsOk;
    ChunksMapped(m);
    FreshPages(s, m.mapped, m.chunks, c, n);
    assert m'.mapped - {Times(c, s.pageSize)} == m.mapped;
  }

  lemma {:induction false} RegionBacked(m: State, mapped: map<nat, nat>, pageMap: nat, table: map<nat, nat>,
          spans: set<nat>, chunks: set<nat>)
    requires BackedBy(m, pageMap, table, spans, chunks) && RegionsOk(mapped)
    requires forall c :: c in m.chunks ==> c in m.mapped && c in mapped && mapped[c] == m.mapped[c]
    ensures BackedBy(m.(mapped := mapped), pageMap, table, spans, chunks)
  {
    hide State.Ok, RegionsOk, ClientOk;
    BackedOk(m, pageMap, table, spans, chunks);
    OtherRegion(m, mapped, pageMap);
    var m' := m.(mapped := mapped);
    forall a | a in spans ensures RecordOk(m', a, SPAN_BYTES) { assert RecordOk(m, a, SPAN_BYTES); }
    forall a | a in chunks ensures RecordOk(m', a, CHUNK_BYTES) { assert RecordOk(m, a, CHUNK_BYTES); }
  }

  /** The metadata arena holds these span and chunk records and no others, and its page map this table. */
  ghost predicate BackedBy(m: State, pageMap: nat, table: map<nat, nat>, spans: set<nat>, chunks: set<nat>) {
    (if pageMap == 0 then m.Ok(NO_KEY) && table == map[] else ClientOk(m, pageMap) && Holding(m, pageMap, table)) &&
    (forall a :: a in spans ==> RecordOk(m, a, SPAN_BYTES)) &&
    (forall a :: a in chunks ==> RecordOk(m, a, CHUNK_BYTES)) &&
    NoOthers(m, pageMap, spans, chunks)
  }

  /** The arena's clients hold these records only, and its tries are the page map and the free-list map. */
  ghost predicate NoOthers(m: State, pageMap: nat, spans: set<nat>, chunks: set<nat>) {
    (forall a {:trigger m.own[a]} :: a in m.own && m.own[a] == Record ==> a in spans || a in chunks) &&
    forall r {:trigger r in m.shapes} :: r in m.shapes ==> r != 0 && (r == pageMap || r == m.flm)
  }

  lemma {:induction false} NoOthersKept(m: State, m': State, pageMap: nat, spans: set<nat>, chunks: set<nat>)
    requires NoOthers(m, pageMap, spans, chunks) && NothingNew(m, m') && (m.flm != 0 ==> m'.flm == m.flm)
    ensures NoOthers(m', pageMap, spans, chunks)
  {}

  lemma {:induction false} NoOthersHanded(m: State, m': State, size: nat, pageMap: nat, spans: set<nat>,
          chunks: set<nat>, r: nat)
    requires NoOthers(m, pageMap, spans, chunks) && Handed(m, m', size, r)
    ensures NoOthers(m', pageMap, spans + {r}, chunks) && NoOthers(m', pageMap, spans, chunks + {r})
  {
    hide State.Ok, Steady, Untouched;
  }

  lemma {:induction false} NoOthersFreed(m: State, m': State, size: nat, pageMap: nat, spans: set<nat>,
          chunks: set<nat>, a: nat)
    requires NoOthers(m, pageMap, spans, chunks) && Freed(m, m', a, size)
    ensures NoOthers(m', pageMap, spans - {a}, chunks)
  {
    hide Steady, Kept, ListsPoppedBut, ArenaOk, RegionsOk, WatchOk, SizesOk, FreeOk, HeadsAgree;
    forall x | x in m'.own && m'.own[x] == Record ensures x in spans - {a} || x in chunks {
      assert x != a && x != m'.flm;
      assert x in m.own && m.own[x] == Record;
    }
  }

  /** Readers look up pages of spans in use only. */
  ghost predicate WatchesUsed(s: Pages, m: State, pageMap: nat) {
    (m.watched != map[] ==> m.watchedRoot == pageMap) &&
    forall k :: k in m.watched ==> k in s.table && s.table[k] in s.Used()
  }

  lemma {:induction false} RecordBacked(m: State, m': State, pageMap: nat, table: map<nat, nat>, spans: set<nat>,
          chunks: set<nat>, a: nat)
    requires pageMap != 0 && BackedBy(m, pageMap, table, spans, chunks) && Handed(m, m', SPAN_BYTES, a)
    ensures BackedBy(m', pageMap, table, spans + {a}, chunks) && a !in spans && a != 0 && Steady(m, m')
  {
    hide ArenaOk, RegionsOk, CoreOk, SizesOk, TrieOk, Counted, WatchOk, Untouched, Handed, NoOthers;
    NoOthersHanded(m, m', SPAN_BYTES, pageMap, spans, chunks, a);
    ClientAlloc(m, m', pageMap, SPAN_BYTES, a);
    AllocRecords(m, m', SPAN_BYTES, a);
    HandedSteady(m, m', SPAN_BYTES, a);
    KeptBacked(m, m', spans, chunks);
  }

  lemma {:induction false} RangeBacked(m: State, m': State, pageMap: nat, table: map<nat, nat>, spans: set<nat>,
          chunks: set<nat>, from: nat, to: nat, v: nat)
    requires pageMap != 0 && BackedBy(m, pageMap, table, spans, chunks) && RangeStep(m, m', pageMap, from, to, v) &&
      v != 0
    ensures BackedBy(m', pageMap, table + Range(from, to, v), spans, chunks) && Steady(m, m')
  {
    hide ClientOk, Steady, RecordsKept, RecordOk, NoOthers, NothingNew;
    KeptBacked(m, m', spans, chunks);
    NoOthersKept(m, m', pageMap, spans, chunks);
  }

  /** The place of a span in its chunk. */
  ghost function TileOf(s: Pages, a: nat): (i: nat)
    requires s.SpansOk() && a in s.home
    ensures s.home[a] in s.tiles && i < |s.tiles[s.home[a]]| && s.tiles[s.home[a]][i] == a
  {
    var i :| 0 <= i < |s.tiles[s.home[a]]| && s.tiles[s.home[a]][i] == a;
    i
  }

  lemma {:induction false} SteadyWatch(m: State, m': State)
    requires Steady(m, m')
    ensures m'.watched == m.watched && m'.watchedRoot == m.watchedRoot
  {}

  lemma {:induction false} SplitChain(s: Pages, a: nat, i: nat, r: nat, p: nat, old_r: Phys, spans: map<nat, Phys>)
    requires CanSplit(s, a, i, r, p) && spans.Keys == s.spans.Keys + {r}
    requires spans[r] == Phys(s.spans[a].next, a, old_r.bin, s.spans[a].base + Times(p, s.pageSize),
        s.spans[a].pages - p)
    requires spans[a] == s.spans[a].(pages := p, next := r)
    requires forall b :: b in s.spans && b != a ==>
      spans[b] == if b != 0 && b == s.spans[a].next then s.spans[b].(prev := r) else s.spans[b]
    ensures var t := Linked(s, a, i, r, p, old_r.bin);
      t.spans == spans && t.pageSize == s.pageSize && t.table == s.table && t.heads == s.heads && t.bits == s.bits &&
      t.place == s.place
  {
    hide Pages.TableOk, Pages.ChunksOk, Pages.PoolOk, CanSplit;
    CutFacts(s, a, i, r, p);
    forall b | b in spans
      ensures b in SplitSpans(s, a, r, p, old_r.bin) && spans[b] == SplitSpans(s, a, r, p, old_r.bin)[b] {}
  }

  lemma {:induction false} SplitSizes(s: Pages, a: nat, i: nat, r: nat, p: nat, g: nat)
    requires CanSplit(s, a, i, r, p)
    ensures forall t ::
      SplitDone(s, a, i, r, p, g, t) ==>
        r in t.spans && t.spans[r].pages < MAX_BINNED_PAGES && |t.pool| == |t.heads| == MAX_BINNED_PAGES
  {
    hide Range, SplitSpans;
    SplitKeys(s, a, i, r, p, g);
    CutPages(s, a, i, r, p, g);
  }

  lemma {:induction false} IsCut(s: Pages, s1: Pages, s': Pages, a: nat, i: nat, r: nat, p: nat, g: nat)
    requires CanSplit(s, a, i, r, p) && SplitDone(s, a, i, r, p, g, s1)
    requires r in s1.spans && s1.spans[r].pages < |s1.pool| && |s1.heads| == |s1.pool| && s' == Given(s1, r)
    ensures Cut(s, s', a, r, p)
  {
    hide Range, SplitSpans, Pages.ChunksOk, Pages.TableOk, Given, Inserted;
    CutPages(s, a, i, r, p, g);
    assert CutBy(s, s', a, i, r, p, g);
  }

  lemma {:induction false} CutPages(s: Pages, a: nat, i: nat, r: nat, p: nat, g: nat)
    requires CanSplit(s, a, i, r, p)
    ensures var x := Linked(s, a, i, r, p, g).spans;
      r in x && x[r].pages == s.spans[a].pages - p && x[r].pages < MAX_BINNED_PAGES &&
      x[r].base == Times(s.page[a] + p, s.pageSize) &&
      s.pageSize > 0 && Quotient(x[r].base, s.pageSize) == s.page[a] + p && s.page[a] + s.spans[a].pages <= KEY_LIMIT
    ensures forall k :: s.page[a] + p <= k < s.page[a] + s.spans[a].pages ==> k in s.table && s.table[k] == a
    ensures |s.pool| == |s.heads| == MAX_BINNED_PAGES && r !in s.place && s.spans[a].pages < MAX_BINNED_PAGES
    ensures Linked(s, a, i, r, p, g).pageSize == s.pageSize
    ensures a in s.spans && a in s.home && s.home[a] in s.tiles && i < |s.tiles[s.home[a]]| && r != 0 && a in s.page
  {
    SplitKeys(s, a, i, r, p, g);
    assert s.SpanOk(a);
    TimesAdd(s.page[a], p, s.pageSize);
    QuotientOf(Times(s.page[a] + p, s.pageSize), s.page[a] + p, s.pageSize);
    forall k | s.page[a] + p <= k < s.page[a] + s.spans[a].pages ensures k in s.table && s.table[k] == a {
      assert s.Covers(a, k);
    }
  }

  lemma {:induction false} CutFacts(s: Pages, a: nat, i: nat, r: nat, p: nat)
    requires CanSplit(s, a, i, r, p)
    ensures a in s.spans && r !in s.spans && 0 < p < s.spans[a].pages
    ensures s.spans[a].next != 0 ==> s.spans[a].next in s.spans && s.spans[a].next != a && s.spans[a].next != r
  {
    SplitKeys(s, a, i, r, p, 0);
  }

  lemma {:induction false} Splittable(s: Pages, a: nat, i: nat, r: nat, p: nat)
    requires s.Ok() && a in s.spans && 0 < p < s.spans[a].pages && a in s.home && a !in s.place && r !in s.spans &&
      r != 0
    requires s.home[a] in s.tiles && i < |s.tiles[s.home[a]]| && s.tiles[s.home[a]][i] == a
    ensures CanSplit(s, a, i, r, p)
  {}

  lemma {:induction false} BackedOk(m: State, pageMap: nat, table: map<nat, nat>, spans: set<nat>, chunks: set<nat>)
    requires BackedBy(m, pageMap, table, spans, chunks)
    ensures m.Ok(NO_KEY) && (pageMap != 0 ==> ClientOk(m, pageMap) && Holding(m, pageMap, table))
  {}

  lemma {:induction false} HandedSteady(m: State, m': State, size: nat, a: nat)
    requires Handed(m, m', size, a)
    ensures Steady(m, m') && m'.flm == m.flm && m'.Ok(NO_KEY)
  {}

  lemma {:induction false} KeptBacked(m: State, m': State, spans: set<nat>, chunks: set<nat>)
    requires RecordsKept(m, m') && Steady(m, m')
    requires (forall a :: a in spans ==> RecordOk(m, a, SPAN_BYTES)) &&
      (forall a :: a in chunks ==> RecordOk(m, a, CHUNK_BYTES))
    ensures (forall a :: a in spans ==> RecordOk(m', a, SPAN_BYTES)) &&
      (forall a :: a in chunks ==> RecordOk(m', a, CHUNK_BYTES))
  {
    hide RecordsKept, Steady, RecordOk;
    forall a | a in spans ensures RecordOk(m', a, SPAN_BYTES) { RecordStays(m, m', a, SPAN_BYTES); }
    forall a | a in chunks ensures RecordOk(m', a, CHUNK_BYTES) { RecordStays(m, m', a, CHUNK_BYTES); }
  }

  lemma {:induction false} TakenBits(s: Pages, q: nat)
    requires s.Ok() && q < MAX_BINNED_PAGES && s.pool[q] != []
    ensures Last(Popped(s.pool[q])) == 0 <==> Popped(s.pool[q]) == []
    ensures s.heads[q] == Last(s.pool[q]) && |s.heads| == |s.pool| == MAX_BINNED_PAGES
  {
    var rest := Popped(s.pool[q]);
    if rest != [] { assert s.PooledOk(q, |rest| - 1); }
  }

  lemma {:induction false} PageSizeOk(shift: nat)
    requires 12 <= shift
    ensures 4096 <= Pow2(shift) && Pow2(shift) % 16 == 0
  {
    if shift == 12 {
      assert Pow2(4) == 16;
      Pow2Add(4, 4);
      Pow2Add(8, 4);
    } else {
      PageSizeOk(shift - 1);
    }
  }

  lemma {:induction false} BitmapAdd(words: seq<Word>, words': seq<Word>, p: nat, w: Word)
    requires p / 64 < |words| && words' == words[p / 64 := w] && Ones(w) == Ones(words[p / 64]) + {p % 64}
    ensures FreeSet(words') == FreeSet(words) + {p}
  {
    forall i: nat ensures i in FreeSet(words') <==> i in FreeSet(words) || i == p {}
  }

  lemma {:induction false} BitmapRemove(words: seq<Word>, words': seq<Word>, p: nat, w: Word)
    requires p / 64 < |words| && words' == words[p / 64 := w] && Ones(w) == Ones(words[p / 64]) - {p % 64}
    ensures FreeSet(words') == FreeSet(words) - {p}
  {
    forall i: nat ensures i in FreeSet(words') <==> i in FreeSet(words) && i != p {}
  }
}
