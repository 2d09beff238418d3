/** The page heap of src/span.c as a value: chunks tiled by spans, the pool of cached spans, and the
    table from pages to spans. */
module PageState {
  import opened Linear
  import opened RangeMapSpec

  const MAX_BINNED_PAGES: nat := 8193
  const DATA_CHUNK_SIZE: nat := 0x200_0000

  /** The page part of a span record. Addresses of records are the spans' identities; 0 is NULL. */
  datatype Phys = Phys(next: nat, prev: nat, bin: nat, base: nat, pages: nat)

  datatype Pages = Pages(
    pageSize: nat,
    spans: map<nat, Phys>,
    page: map<nat, nat>,         // the first page of each span
    heads: seq<nat>,             // uninitilized_span_bin
    bits: set<nat>,              // non_empty_bitmap
    pool: seq<seq<nat>>,         // the bins' lists, heads last
    place: map<nat, (nat, nat)>, // a cached span's bin and position in it
    tiles: map<nat, seq<nat>>,   // per chunk, by first page, its spans in address order
    size: map<nat, nat>,         // per chunk, its pages
    home: map<nat, nat>,         // a span's chunk; a span outside every chunk is a mapping of its own
    table: map<nat, nat>)        // the page map
  {
    ghost predicate Ok() {
      SpansOk() && TableOk() && ChunksOk() && PoolOk()
    }

    ghost predicate SpansOk() {
      pageSize > 0 && 0 !in spans && page.Keys == spans.Keys &&
      (forall a {:trigger SpanOk(a)} :: a in spans ==> SpanOk(a)) &&
      (forall a :: a in home ==> a in spans && home[a] in tiles && a in tiles[home[a]])
    }

    ghost predicate ChunksOk() {
      tiles.Keys == size.Keys && forall c {:trigger ChunkOk(c)} :: c in tiles ==> ChunkOk(c)
    }

    ghost predicate SpanOk(a: nat)
      requires a in spans
    {
      a in page && 0 < spans[a].pages && spans[a].base == Times(page[a], pageSize) && 0 < page[a] &&
      page[a] + spans[a].pages <= KEY_LIMIT && (a in home <==> spans[a].pages < MAX_BINNED_PAGES)
    }

    ghost predicate Covers(a: nat, k: nat) {
      a in spans && a in page && page[a] <= k < page[a] + spans[a].pages
    }

    /** Each page of each span, and no other page, is in the table, with its span. */
    ghost predicate TableOk() {
      (forall a, k {:trigger Covers(a, k)} :: Covers(a, k) ==> k in table && table[k] == a) &&
      (forall k :: k in table ==> Covers(table[k], k))
    }

    /** The spans of a chunk tile it exactly and are doubly linked in address order. */
    ghost predicate ChunkOk(c: nat)
      requires c in tiles
    {
      tiles[c] != [] && c in size &&
      (forall i {:trigger TileOk(c, i)} :: 0 <= i < |tiles[c]| ==> TileOk(c, i)) &&
      End(tiles[c][|tiles[c]| - 1]) == c + size[c]
    }

    ghost function End(a: nat): nat {
      if a in spans && a in page then page[a] + spans[a].pages else 0
    }

    ghost predicate TileOk(c: nat, i: nat)
      requires c in tiles && i < |tiles[c]|
    {
      var a := tiles[c][i];
      a in spans && a in page && a in home && home[a] == c &&
      page[a] == (if i == 0 then c else End(tiles[c][i - 1])) &&
      spans[a].prev == (if i == 0 then 0 else tiles[c][i - 1]) &&
      spans[a].next == (if i + 1 == |tiles[c]| then 0 else tiles[c][i + 1])
    }

    /** Bin p holds exactly the cached spans of p pages, each once, linked from its head; its bit
        is set exactly when it is not empty. */
    ghost predicate PoolOk() {
      |heads| == MAX_BINNED_PAGES && |pool| == MAX_BINNED_PAGES &&
      (forall p, d {:trigger PooledOk(p, d)} :: 0 <= p < |pool| && 0 <= d < |pool[p]| ==> PooledOk(p, d)) &&
      (forall a ::
        a in place ==> place[a].0 < |pool| && place[a].1 < |pool[place[a].0]| && pool[place[a].0][place[a].1] == a) &&
      (forall p: nat {:trigger heads[p]} :: p < MAX_BINNED_PAGES ==> heads[p] == Last(pool[p])) &&
      (forall p: nat {:trigger p in bits} :: p in bits <==> p < MAX_BINNED_PAGES && pool[p] != [])
    }

    ghost predicate PooledOk(p: nat, d: nat)
      requires p < |pool| && d < |pool[p]|
    {
      var a := pool[p][d];
      a in home && a in spans && a in place && place[a] == (p, d) && spans[a].pages == p &&
      spans[a].bin == (if d == 0 then 0 else pool[p][d - 1])
    }

    /** The spans that are in use: handed out and not given back. */
    ghost function Used(): set<nat> {
      spans.Keys - place.Keys
    }
  }

  ghost function Last(l: seq<nat>): nat {
    if l == [] then 0 else l[|l| - 1]
  }

  /** Two spans never share a page. */
  lemma {:induction false} SpansApart(s: Pages, a: nat, b: nat, k: nat)
    requires s.Ok() && s.Covers(a, k) && s.Covers(b, k)
    ensures a == b
  {}

  // ---- taking from and giving to the pool ----

  ghost function Taken(s: Pages, q: nat): Pages
    requires q < |s.pool| && q < |s.heads| && s.pool[q] != []
  {
    var rest := Popped(s.pool[q]);
    s.(heads := s.heads[q := Last(rest)], pool := s.pool[q := rest], place := s.place - {Last(s.pool[q])},
       bits := if rest == [] then s.bits - {q} else s.bits)
  }

  /** The spans are the same but for their bin links. */
  ghost predicate SamePlaces(s: Pages, s': Pages) {
    s'.pageSize == s.pageSize && s'.spans.Keys == s.spans.Keys && s'.page == s.page && s'.tiles == s.tiles &&
    s'.size == s.size && s'.home == s.home && s'.table == s.table &&
    forall a :: a in s.spans ==> s'.spans[a] == s.spans[a].(bin := s'.spans[a].bin)
  }

  lemma {:induction false} PlacesSame(s: Pages, s': Pages)
    requires s.SpansOk() && s.TableOk() && s.ChunksOk() && SamePlaces(s, s')
    ensures s'.SpansOk() && s'.TableOk() && s'.ChunksOk()
  {
    forall a | a in s'.spans ensures s'.SpanOk(a) { assert s.SpanOk(a); }
    TableSame(s, s');
    ChunksSame(s, s');
  }

  /** Unlinking the head of a non-empty bin. */
  lemma {:induction false} TakenOk(s: Pages, q: nat)
    requires s.Ok() && q < MAX_BINNED_PAGES && s.pool[q] != []
    ensures Taken(s, q).Ok() && Last(s.pool[q]) in s.place && Last(s.pool[q]) in s.home && Last(s.pool[q]) in s.spans
    ensures s.spans[Last(s.pool[q])].pages == q && Last(Popped(s.pool[q])) == s.spans[Last(s.pool[q])].bin
    ensures Taken(s, q).Used() == s.Used() + {Last(s.pool[q])}
  {
    hide Pages.SpansOk, Pages.TableOk, Pages.ChunksOk;
    var s' := Taken(s, q);
    assert s.PooledOk(q, |s.pool[q]| - 1);
    PlacesSame(s, s');
    forall p: nat, d: nat | p < |s'.pool| && d < |s'.pool[p]| ensures s'.PooledOk(p, d) { assert s.PooledOk(p, d); }
  }

  lemma {:induction false} TableSame(s: Pages, s': Pages)
    requires s.TableOk() && SamePlaces(s, s')
    ensures s'.TableOk()
  {
    forall a, k | s'.Covers(a, k) ensures k in s'.table && s'.table[k] == a { assert s.Covers(a, k); }
    forall k | k in s'.table ensures s'.Covers(s'.table[k], k) { assert s.Covers(s.table[k], k); }
  }

  lemma {:induction false} ChunksSame(s: Pages, s': Pages)
    requires s.ChunksOk() && SamePlaces(s, s')
    ensures s'.ChunksOk()
  {
    forall c | c in s'.tiles ensures s'.ChunkOk(c) {
      assert s.ChunkOk(c);
      forall i | 0 <= i < |s'.tiles[c]| ensures s'.TileOk(c, i) { assert s.TileOk(c, i); }
      assert s.TileOk(c, |s.tiles[c]| - 1);
    }
  }

  ghost function Given(s: Pages, a: nat): Pages
    requires a in s.spans && s.spans[a].pages < |s.pool| && |s.heads| == |s.pool|
  {
    var p := s.spans[a].pages;
    s.(spans := s.spans[a := s.spans[a].(bin := s.heads[p])], heads := s.heads[p := a],
        pool := s.pool[p := s.pool[p] + [a]],
       place := s.place[a := (p, |s.pool[p]|)], bits := s.bits + {p})
  }

  /** Pushing a span in use on the bin of its page count. */
  lemma {:induction false} GivenOk(s: Pages, a: nat)
    requires s.Ok() && a in s.home && a in s.spans && a !in s.place
    ensures s.spans[a].pages < MAX_BINNED_PAGES && Given(s, a).Ok() && Given(s, a).Used() == s.Used() - {a}
  {
    hide Pages.TableOk, Pages.ChunksOk, Pages.PoolOk;
    assert s.SpanOk(a);
    PoolSize(s);
    PlacesSame(s, Given(s, a));
    GivenPool(s, a);
  }

  lemma {:induction false} PoolSize(s: Pages)
    requires s.PoolOk()
    ensures |s.heads| == |s.pool| == MAX_BINNED_PAGES
  {}

  lemma {:induction false} GivenPool(s: Pages, a: nat)
    requires s.PoolOk() && a in s.home && a in s.spans && a !in s.place && s.spans[a].pages < MAX_BINNED_PAGES
    ensures Given(s, a).PoolOk()
  {
    var s' := Given(s, a);
    forall p: nat, d: nat | p < |s'.pool| && d < |s'.pool[p]| ensures s'.PooledOk(p, d) {
      if p != s.spans[a].pages || d < |s.pool[p]| { assert s.PooledOk(p, d); }
    }
  }

  // ---- splitting a span in use ----

  predicate Within(k: nat, from: nat, to: nat) {
    from <= k < to
  }

  /** Every number in the interval, mapped to v. */
  function Range(from: nat, to: nat, v: nat): (m: map<nat, nat>)
    ensures forall k: nat :: k in m <==> from <= k < to
    ensures forall k :: k in m ==> m[k] == v
  {
    map k: nat | from <= k < to && Within(k, from, to) :: v
  }

  ghost function SplitSpans(s: Pages, a: nat, r: nat, p: nat, g: nat): map<nat, Phys>
    requires a in s.spans && p <= s.spans[a].pages
  {
    var next := s.spans[a].next;
    var two := s.spans[a := s.spans[a].(pages := p, next := r)]
                      [r := Phys(next, a, g, s.spans[a].base + Times(p, s.pageSize), s.spans[a].pages - p)];
    if next != 0 && next in s.spans then two[next := s.spans[next].(prev := r)] else two
  }

  /** The list with r after its i-th element. */
  ghost function Inserted(t: seq<nat>, i: nat, r: nat): seq<nat>
    requires i < |t|
  {
    t[..i + 1] + [r] + t[i + 1..]
  }

  /** Span a keeps its first p pages; the new span r after it gets the rest, its bin link being g. */
  ghost function Split(s: Pages, a: nat, i: nat, r: nat, p: nat, g: nat): Pages
    requires a in s.spans && a in s.page && a in s.home && s.home[a] in s.tiles && i < |s.tiles[s.home[a]]|
    requires p <= s.spans[a].pages
  {
    var c := s.home[a];
    var t := s.tiles[c];
    s.(spans := SplitSpans(s, a, r, p, g), page := s.page[r := s.page[a] + p],
       tiles := s.tiles[c := Inserted(t, i, r)], home := s.home[r := c],
       table := s.table + Range(s.page[a] + p, s.page[a] + s.spans[a].pages, r))
  }

  ghost predicate CanSplit(s: Pages, a: nat, i: nat, r: nat, p: nat) {
    s.Ok() && a in s.spans && a in s.page && a in s.home && s.home[a] in s.tiles && i < |s.tiles[s.home[a]]| &&
    s.tiles[s.home[a]][i] == a && a !in s.place && 0 < p < s.spans[a].pages && r !in s.spans && r != 0
  }

  lemma {:induction false} SplitOk(s: Pages, a: nat, i: nat, r: nat, p: nat, g: nat)
    requires CanSplit(s, a, i, r, p)
    ensures Split(s, a, i, r, p, g).Ok()
    ensures Split(s, a, i, r, p, g).Used() == s.Used() + {r}
  {
    hide Pages.SpansOk, Pages.TableOk, Pages.ChunksOk, Pages.PoolOk, SplitSpans;
    SplitSpansOk(s, a, i, r, p, g);
    SplitTable(s, a, i, r, p, g);
    SplitChunks(s, a, i, r, p, g);
    SplitPool(s, a, i, r, p, g);
    SplitKeys(s, a, i, r, p, g);
  }

  /** What a split does to each span. */
  lemma {:induction false} SplitKeys(s: Pages, a: nat, i: nat, r: nat, p: nat, g: nat)
    requires CanSplit(s, a, i, r, p)
    ensures var s' := Split(s, a, i, r, p, g);
      s'.spans.Keys == s.spans.Keys + {r} && a != r && a != s.spans[a].next && r !in s.page && r !in s.home &&
      r !in s.place
    ensures var s' := Split(s, a, i, r, p, g);
      s'.spans[a] == s.spans[a].(pages := p, next := r) &&
      s'.spans[r] == Phys(s.spans[a].next, a, g, s.spans[a].base + Times(p, s.pageSize), s.spans[a].pages - p)
    ensures s.TileOk(s.home[a], i) && 0 !in s.spans
    ensures s.spans[a].next != 0 ==> s.spans[a].next in s.home && s.home[s.spans[a].next] == s.home[a]
    ensures var s' := Split(s, a, i, r, p, g);
      forall b ::
        b in s.spans && b != a ==> s'.spans[b] == if b == s.spans[a].next then s.spans[b].(prev := r) else s.spans[b]
  {
    assert s.ChunkOk(s.home[a]);
    assert s.TileOk(s.home[a], i);
    assert i + 1 == |s.tiles[s.home[a]]| || s.TileOk(s.home[a], i + 1);
    assert s.SpanOk(a);
    assert r !in s.place || s.PooledOk(s.place[r].0, s.place[r].1);
  }

  lemma {:induction false} SplitSpansOk(s: Pages, a: nat, i: nat, r: nat, p: nat, g: nat)
    requires CanSplit(s, a, i, r, p)
    ensures Split(s, a, i, r, p, g).SpansOk()
  {
    hide Pages.TableOk, Pages.ChunksOk, Pages.PoolOk, SplitSpans;
    SplitKeys(s, a, i, r, p, g);
    var s' := Split(s, a, i, r, p, g);
    TimesAdd(s.page[a], p, s.pageSize);
    assert s.SpanOk(a);
    forall b | b in s'.spans ensures s'.SpanOk(b) {
      if b != r { assert s.SpanOk(b); }
    }
  }

  lemma {:induction false} SplitTable(s: Pages, a: nat, i: nat, r: nat, p: nat, g: nat)
    requires CanSplit(s, a, i, r, p)
    ensures Split(s, a, i, r, p, g).TableOk()
  {
    hide Pages.SpansOk, Pages.ChunksOk, Pages.PoolOk, SplitSpans;
    SplitKeys(s, a, i, r, p, g);
    var s' := Split(s, a, i, r, p, g);
    assert s.TableOk();
    forall b, k | s'.Covers(b, k) ensures k in s'.table && s'.table[k] == b {
      if b == r {
        assert s.Covers(a, k);
      } else {
        assert s.Covers(b, k);
        assert b == a || !s.Covers(a, k);
      }
    }
    forall k | k in s'.table ensures s'.Covers(s'.table[k], k) {
      assert k in s.table ==> s.Covers(s.table[k], k);
    }
  }

  lemma {:induction false} SplitPool(s: Pages, a: nat, i: nat, r: nat, p: nat, g: nat)
    requires CanSplit(s, a, i, r, p)
    ensures Split(s, a, i, r, p, g).PoolOk()
  {
    hide Pages.SpansOk, Pages.TableOk, Pages.ChunksOk, SplitSpans;
    SplitKeys(s, a, i, r, p, g);
    var s' := Split(s, a, i, r, p, g);
    forall q: nat, d: nat | q < |s'.pool| && d < |s'.pool[q]| ensures s'.PooledOk(q, d) { assert s.PooledOk(q, d); }
  }

  lemma {:induction false} SplitChunks(s: Pages, a: nat, i: nat, r: nat, p: nat, g: nat)
    requires CanSplit(s, a, i, r, p)
    ensures Split(s, a, i, r, p, g).ChunksOk()
  {
    hide Pages.SpansOk, Pages.TableOk, Pages.PoolOk, SplitSpans;
    SplitKeys(s, a, i, r, p, g);
    var s' := Split(s, a, i, r, p, g);
    var c := s.home[a];
    forall c' | c' in s'.tiles ensures s'.ChunkOk(c') {
      assert s.ChunkOk(c');
      if c' != c {
        assert s.ChunkOk(c);
        if i + 1 < |s.tiles[c]| { assert s.TileOk(c, i + 1); }
        forall j | 0 <= j < |s'.tiles[c']| ensures s'.TileOk(c', j) {
          assert s.TileOk(c', j);
          if j > 0 { assert s.TileOk(c', j - 1); }
          assert s'.spans[s.tiles[c'][j]] == s.spans[s.tiles[c'][j]];
        }
        assert s.TileOk(c', |s.tiles[c']| - 1);
      } else {
        SplitTiles(s, a, i, r, p, g);
      }
    }
  }

  lemma {:induction false} SplitTiles(s: Pages, a: nat, i: nat, r: nat, p: nat, g: nat)
    requires CanSplit(s, a, i, r, p)
    ensures Split(s, a, i, r, p, g).ChunkOk(s.home[a])
  {
    hide Pages.SpansOk, Pages.TableOk, Pages.PoolOk, SplitSpans;
    SplitKeys(s, a, i, r, p, g);
    var s' := Split(s, a, i, r, p, g);
    var c := s.home[a];
    assert s.ChunkOk(c);
    var t, t' := s.tiles[c], s'.tiles[c];
    assert forall j :: 0 <= j <= i ==> t'[j] == t[j];
    assert t'[i + 1] == r;
    assert forall j :: i + 1 < j < |t'| ==> t'[j] == t[j - 1];
    forall j | 0 <= j < |t'| ensures s'.TileOk(c, j) {
      SplitTile(s, a, i, r, p, g, j);
    }
    TilesDistinct(s, c);
    assert s.TileOk(c, |t| - 1);
    assert t'[|t'| - 1] == if i + 1 == |t| then r else t[|t| - 1];
  }

  lemma {:induction false} SplitTile(s: Pages, a: nat, i: nat, r: nat, p: nat, g: nat, j: nat)
    requires CanSplit(s, a, i, r, p) && j <= |s.tiles[s.home[a]]|
    ensures Split(s, a, i, r, p, g).TileOk(s.home[a], j)
  {
    hide CanSplit, Split, Pages.TileOk;
    if j <= i {
      TileBefore(s, a, i, r, p, g, j);
    } else if j == i + 1 {
      TileBetween(s, a, i, r, p, g);
    } else {
      TileAfter(s, a, i, r, p, g, j);
    }
  }

  lemma {:induction false} SplitFields(s: Pages, a: nat, i: nat, r: nat, p: nat, g: nat)
    requires CanSplit(s, a, i, r, p)
    ensures var s', c := Split(s, a, i, r, p, g), s.home[a];
      s'.page == s.page[r := s.page[a] + p] && s'.home == s.home[r := c] &&
      s'.tiles == s.tiles[c := Inserted(s.tiles[c], i, r)] &&
      s'.size == s.size && s'.pageSize == s.pageSize && s'.pool == s.pool && s'.place == s.place &&
      s'.heads == s.heads &&
      s'.table == s.table + Range(s.page[a] + p, s.page[a] + s.spans[a].pages, r)
  {
    hide Range, SplitSpans, Inserted;
  }

  lemma {:induction false} TileBefore(s: Pages, a: nat, i: nat, r: nat, p: nat, g: nat, j: nat)
    requires CanSplit(s, a, i, r, p) && j <= i
    ensures Split(s, a, i, r, p, g).TileOk(s.home[a], j)
  {
    hide Pages.SpansOk, Pages.TableOk, Pages.PoolOk, SplitSpans, Range, Split;
    SplitKeys(s, a, i, r, p, g);
    SplitFields(s, a, i, r, p, g);
    var c := s.home[a];
    var t := s.tiles[c];
    var t' := Split(s, a, i, r, p, g).tiles[c];
    assert s.ChunkOk(c);
    TilesApart(s, c, i, j);
    if j > 0 { TilesApart(s, c, i, j - 1); }
    if i + 1 < |t| { TilesApart(s, c, i + 1, j); }
    assert s.TileOk(c, i) && s.TileOk(c, j);
    assert i + 1 == |t| || s.TileOk(c, i + 1);
    assert j == 0 || (t'[j - 1] == t[j - 1] && s.TileOk(c, j - 1));
    assert t'[j] == t[j] && t'[j + 1] == if j == i then r else t[j + 1];
  }

  lemma {:induction false} TileBetween(s: Pages, a: nat, i: nat, r: nat, p: nat, g: nat)
    requires CanSplit(s, a, i, r, p)
    ensures Split(s, a, i, r, p, g).TileOk(s.home[a], i + 1)
  {
    hide Pages.SpansOk, Pages.TableOk, Pages.PoolOk, SplitSpans, Range, Split;
    SplitKeys(s, a, i, r, p, g);
    SplitFields(s, a, i, r, p, g);
    var c := s.home[a];
    var t := s.tiles[c];
    var t' := Split(s, a, i, r, p, g).tiles[c];
    assert s.ChunkOk(c);
    assert s.TileOk(c, i);
    assert i + 1 == |t| || s.TileOk(c, i + 1);
    assert t'[i + 1] == r && t'[i] == a;
    assert i + 2 == |t'| || t'[i + 2] == t[i + 1];
  }

  lemma {:induction false} TileAfter(s: Pages, a: nat, i: nat, r: nat, p: nat, g: nat, j: nat)
    requires CanSplit(s, a, i, r, p) && i + 1 < j <= |s.tiles[s.home[a]]|
    ensures Split(s, a, i, r, p, g).TileOk(s.home[a], j)
  {
    hide Pages.SpansOk, Pages.TableOk, Pages.PoolOk, SplitSpans, Range, Split;
    SplitKeys(s, a, i, r, p, g);
    SplitFields(s, a, i, r, p, g);
    var c := s.home[a];
    var t := s.tiles[c];
    var t' := Split(s, a, i, r, p, g).tiles[c];
    assert s.ChunkOk(c);
    TilesApart(s, c, i, j - 1);
    TilesApart(s, c, i, j - 2);
    TilesApart(s, c, i + 1, j - 1);
    assert s.TileOk(c, i) && s.TileOk(c, i + 1) && s.TileOk(c, j - 1) && s.TileOk(c, j - 2);
    assert t'[j] == t[j - 1] && t'[j - 1] == if j == i + 2 then r else t[j - 2];
    assert j + 1 == |t'| || t'[j + 1] == t[j];
  }

  /** A chunk's tiles are distinct spans: their first pages grow. */
  lemma {:induction false} TilesDistinct(s: Pages, c: nat)
    requires s.SpansOk() && s.ChunksOk() && c in s.tiles
    ensures forall i, j :: 0 <= i < j < |s.tiles[c]| ==> s.tiles[c][i] != s.tiles[c][j]
  {
    assert s.ChunkOk(c);
    forall i, j | 0 <= i < j < |s.tiles[c]| ensures s.tiles[c][i] != s.tiles[c][j] { TilesGrow(s, c, i, j); }
  }

  lemma {:induction false} TilesApart(s: Pages, c: nat, i: nat, j: nat)
    requires s.SpansOk() && s.ChunksOk() && c in s.tiles && i < |s.tiles[c]| && j < |s.tiles[c]|
    ensures i != j ==> s.tiles[c][i] != s.tiles[c][j]
  {
    if i < j { TilesGrow(s, c, i, j); }
    if j < i { TilesGrow(s, c, j, i); }
  }

  lemma {:induction false} TilesGrow(s: Pages, c: nat, i: nat, j: nat)
    requires s.SpansOk() && s.ChunksOk() && c in s.tiles && i < j < |s.tiles[c]|
    ensures s.TileOk(c, i) && s.TileOk(c, j) && s.page[s.tiles[c][i]] < s.page[s.tiles[c][j]]
    decreases j
  {
    assert s.ChunkOk(c);
    assert s.TileOk(c, i) && s.TileOk(c, j) && s.TileOk(c, j - 1);
    assert s.SpanOk(s.tiles[c][j - 1]) && s.SpanOk(s.tiles[c][i]);
    if i < j - 1 { TilesGrow(s, c, i, j - 1); }
  }

  /** Span a has kept its first p pages and the rest has been cached as span r. */
  ghost predicate Cut(s: Pages, s': Pages, a: nat, r: nat, p: nat) {
    exists i: nat, g: nat :: CutBy(s, s', a, i, r, p, g)
  }

  ghost predicate CutBy(s: Pages, s': Pages, a: nat, i: nat, r: nat, p: nat, g: nat) {
    CanSplit(s, a, i, r, p) && |s.pool| == |s.heads| == MAX_BINNED_PAGES && s.spans[a].pages <= MAX_BINNED_PAGES &&
    (SplitKeys(s, a, i, r, p, g); s' == Given(Split(s, a, i, r, p, g), r))
  }

  /** Cutting keeps the page heap in order; span a stays in use with p pages and r is cached. */
  lemma {:induction false} CutOk(s: Pages, s': Pages, a: nat, r: nat, p: nat)
    requires Cut(s, s', a, r, p)
    ensures s'.Ok() && s'.Used() == s.Used() && r !in s.spans
  {
    hide Pages.SpansOk, Pages.TableOk, Pages.ChunksOk, Pages.PoolOk, SplitSpans, Range, Inserted, Given;
    var i: nat, g: nat :| CutBy(s, s', a, i, r, p, g);
    SplitOk(s, a, i, r, p, g);
    SplitKeys(s, a, i, r, p, g);
    GivenOk(Split(s, a, i, r, p, g), r);
  }

  lemma {:induction false} CutSame(s: Pages, s': Pages, a: nat, r: nat, p: nat)
    requires Cut(s, s', a, r, p)
    ensures a in s.spans && SameUsed(s, s', {a})
    ensures a in s'.spans && s'.spans[a].pages == p && a in s.page && a in s'.page && s'.page[a] == s.page[a]
    ensures s'.spans[a].base == s.spans[a].base && a in s'.home
    ensures s'.tiles.Keys == s.tiles.Keys && s'.size == s.size && s'.pageSize == s.pageSize &&
      s'.spans.Keys == s.spans.Keys + {r}
    ensures s'.table.Keys == s.table.Keys
  {
    var i: nat, g: nat :| CutBy(s, s', a, i, r, p, g);
    hide CutBy, SameUsed;
    CutUsed(s, s', a, i, r, p, g);
    CutFields(s, s', a, i, r, p, g);
  }

  lemma {:induction false} CutUsed(s: Pages, s': Pages, a: nat, i: nat, r: nat, p: nat, g: nat)
    requires CutBy(s, s', a, i, r, p, g)
    ensures SameUsed(s, s', {a})
  {
    hide Pages.SpansOk, Pages.TableOk, Pages.ChunksOk, Pages.PoolOk, SplitSpans, Range, Inserted, Split, Given;
    SplitKeys(s, a, i, r, p, g);
    SplitFields(s, a, i, r, p, g);
    PageKeys(s);
    GivenFields(Split(s, a, i, r, p, g), r);
  }

  lemma {:induction false} CutFields(s: Pages, s': Pages, a: nat, i: nat, r: nat, p: nat, g: nat)
    requires CutBy(s, s', a, i, r, p, g)
    ensures a in s.spans && a in s'.spans && s'.spans[a].pages == p && a in s.page && a in s'.page &&
      s'.page[a] == s.page[a]
    ensures s'.spans[a].base == s.spans[a].base && a in s'.home
    ensures s'.tiles.Keys == s.tiles.Keys && s'.size == s.size && s'.pageSize == s.pageSize &&
      s'.spans.Keys == s.spans.Keys + {r}
    ensures s'.table.Keys == s.table.Keys
  {
    hide Pages.SpansOk, Pages.TableOk, Pages.ChunksOk, Pages.PoolOk, SplitSpans, Range, Inserted, Split, Given;
    SplitKeys(s, a, i, r, p, g);
    SplitFields(s, a, i, r, p, g);
    PageKeys(s);
    GivenFields(Split(s, a, i, r, p, g), r);
    CutTable(s, a, p, r);
  }

  lemma {:induction false} CutTable(s: Pages, a: nat, p: nat, r: nat)
    requires s.TableOk() && a in s.spans && a in s.page
    ensures (s.table + Range(s.page[a] + p, s.page[a] + s.spans[a].pages, r)).Keys == s.table.Keys
  {
    forall k | s.page[a] + p <= k < s.page[a] + s.spans[a].pages ensures k in s.table { PageInTable(s, a, k); }
  }

  lemma {:induction false} GivenFields(s: Pages, a: nat)
    requires a in s.spans && s.spans[a].pages < |s.pool| && |s.heads| == |s.pool|
    ensures var t := Given(s, a);
      t.pageSize == s.pageSize && t.page == s.page && t.tiles == s.tiles && t.size == s.size && t.home == s.home &&
      t.table == s.table &&
      t.spans == s.spans[a := s.spans[a].(bin := t.spans[a].bin)] && a in t.place && t.place == s.place[a := t.place[a]]
  {}

  lemma {:induction false} PageInTable(s: Pages, a: nat, k: nat)
    requires s.TableOk() && s.Covers(a, k)
    ensures k in s.table && s.table[k] == a
  {}

  lemma {:induction false} PageKeys(s: Pages)
    requires s.SpansOk()
    ensures s.page.Keys == s.spans.Keys && s.pageSize > 0 && 0 !in s.spans
  {}

  /** The spans in use, but for those in `except`, are where they were. */
  ghost predicate SameUsed(s: Pages, s': Pages, except: set<nat>) {
    forall b {:trigger s'.spans[b]} {:trigger s.spans[b]} :: b in s.Used() && b !in except ==>
      b in s'.spans && b in s.page && b in s'.page && s'.page[b] == s.page[b] &&
      s'.spans[b].pages == s.spans[b].pages && s'.spans[b].base == s.spans[b].base && (b in s'.home <==> b in s.home)
  }

  // ---- new mappings ----

  /** A mapping of n pages from page c on, one span, and in use. A chunk if it is small enough to be
      binned, a span outside every chunk otherwise, whose links mean nothing. */
  ghost function NewMapping(s: Pages, c: nat, n: nat, a: nat, links: Phys): Pages {
    var binned := n < MAX_BINNED_PAGES;
    var x := Phys(if binned then 0 else links.next, if binned then 0
      else links.prev, links.bin, Times(c, s.pageSize), n);
    s.(spans := s.spans[a := x], page := s.page[a := c], table := s.table + Range(c, c + n, a),
       tiles := if binned then s.tiles[c := [a]] else s.tiles,
       size := if binned then s.size[c := n] else s.size,
       home := if binned then s.home[a := c] else s.home)
  }

  ghost predicate CanMap(s: Pages, c: nat, n: nat, a: nat) {
    s.Ok() && 0 < c && 0 < n && c + n <= KEY_LIMIT && a !in s.spans && a != 0 &&
    forall k :: c <= k < c + n ==> k !in s.table
  }

  lemma {:induction false} NewMappingOk(s: Pages, c: nat, n: nat, a: nat, links: Phys)
    requires CanMap(s, c, n, a)
    ensures NewMapping(s, c, n, a, links).Ok() && a !in s.place
    ensures NewMapping(s, c, n, a, links).Used() == s.Used() + {a}
  {
    hide Pages.SpansOk, Pages.TableOk, Pages.ChunksOk, Pages.PoolOk;
    NewNames(s, c, n, a);
    NewSpans(s, c, n, a, links);
    NewTable(s, c, n, a, links);
    NewChunks(s, c, n, a, links);
    NewPool(s, c, n, a, links);
  }

  lemma {:induction false} NewNames(s: Pages, c: nat, n: nat, a: nat)
    requires CanMap(s, c, n, a)
    ensures a !in s.page && a !in s.home && a !in s.place && c !in s.tiles
  {
    assert a !in s.place || s.PooledOk(s.place[a].0, s.place[a].1);
    if c in s.tiles {
      assert s.ChunkOk(c) && s.TileOk(c, 0);
      assert s.SpanOk(s.tiles[c][0]);
      assert s.Covers(s.tiles[c][0], c);
      assert false;
    }
  }

  lemma {:induction false} NewFacts(s: Pages, c: nat, n: nat, a: nat, links: Phys)
    ensures var s' := NewMapping(s, c, n, a, links);
      s'.spans.Keys == s.spans.Keys + {a} && s'.page == s.page[a := c] && s'.pageSize == s.pageSize &&
      s'.table == s.table + Range(c, c + n, a) && s'.spans[a].pages == n && s'.spans[a].base == Times(c, s.pageSize) &&
      forall b :: b in s.spans && b != a ==> s'.spans[b] == s.spans[b]
    ensures var s' := NewMapping(s, c, n, a, links);
      s'.pool == s.pool && s'.place == s.place && s'.heads == s.heads && s'.bits == s.bits
    ensures var s' := NewMapping(s, c, n, a, links);
      if n < MAX_BINNED_PAGES then
        s'.home == s.home[a := c] && s'.tiles == s.tiles[c := [a]] && s'.size == s.size[c := n] &&
        s'.spans[a].prev == 0 && s'.spans[a].next == 0
      else s'.home == s.home && s'.tiles == s.tiles && s'.size == s.size
  {
    hide Range, Times;
  }

  lemma {:induction false} NewSpans(s: Pages, c: nat, n: nat, a: nat, links: Phys)
    requires CanMap(s, c, n, a)
    ensures NewMapping(s, c, n, a, links).SpansOk()
  {
    hide NewMapping, Range, Pages.TableOk, Pages.ChunksOk, Pages.PoolOk;
    NewNames(s, c, n, a);
    NewFacts(s, c, n, a, links);
    var s' := NewMapping(s, c, n, a, links);
    forall b | b in s'.spans ensures s'.SpanOk(b) {
      if b != a { assert s.SpanOk(b); }
    }
  }

  lemma {:induction false} NewTable(s: Pages, c: nat, n: nat, a: nat, links: Phys)
    requires CanMap(s, c, n, a)
    ensures NewMapping(s, c, n, a, links).TableOk()
  {
    hide NewMapping, Range, Pages.SpansOk, Pages.ChunksOk, Pages.PoolOk;
    NewNames(s, c, n, a);
    NewFacts(s, c, n, a, links);
    var s' := NewMapping(s, c, n, a, links);
    forall b, k | s'.Covers(b, k) ensures k in s'.table && s'.table[k] == b {
      if b != a { assert s.Covers(b, k); }
    }
    forall k | k in s'.table ensures s'.Covers(s'.table[k], k) {
      assert k in s.table ==> s.Covers(s.table[k], k);
    }
  }

  lemma {:induction false} NewChunks(s: Pages, c: nat, n: nat, a: nat, links: Phys)
    requires CanMap(s, c, n, a)
    ensures NewMapping(s, c, n, a, links).ChunksOk()
  {
    hide NewMapping, Range, Pages.SpansOk, Pages.TableOk, Pages.PoolOk;
    NewNames(s, c, n, a);
    NewFacts(s, c, n, a, links);
    var s' := NewMapping(s, c, n, a, links);
    forall c' | c' in s'.tiles ensures s'.ChunkOk(c') {
      if c' != c { ChunkKept(s, s', c'); } else { assert s'.TileOk(c', 0); }
    }
  }

  /** A chunk none of whose spans changes. */
  lemma {:induction false} ChunkKept(s: Pages, s': Pages, c: nat)
    requires s.ChunksOk() && c in s.tiles && c in s'.tiles && s'.tiles[c] == s.tiles[c] && c in s'.size &&
      s'.size[c] == s.size[c]
    requires forall b :: b in s.home && s.home[b] == c && b in s.spans && b in s.page ==>
      b in s'.spans && s'.spans[b] == s.spans[b] && b in s'.page && s'.page[b] == s.page[b] && b in s'.home &&
      s'.home[b] == c
    ensures s'.ChunkOk(c)
  {
    assert s.ChunkOk(c);
    forall j | 0 <= j < |s'.tiles[c]| ensures s'.TileOk(c, j) {
      assert s.TileOk(c, j);
      if j > 0 { assert s.TileOk(c, j - 1); }
    }
    assert s.TileOk(c, |s.tiles[c]| - 1);
  }

  lemma {:induction false} NewPool(s: Pages, c: nat, n: nat, a: nat, links: Phys)
    requires CanMap(s, c, n, a)
    ensures NewMapping(s, c, n, a, links).PoolOk()
  {
    hide Pages.SpansOk, Pages.TableOk, Pages.ChunksOk, NewMapping, Range;
    NewNames(s, c, n, a);
    NewFacts(s, c, n, a, links);
    var s' := NewMapping(s, c, n, a, links);
    forall p: nat, d: nat | p < |s'.pool| && d < |s'.pool[p]| ensures s'.PooledOk(p, d) { assert s.PooledOk(p, d); }
  }

  /** Giving back a mapping of its own. */
  ghost function Unmapping(s: Pages, a: nat): Pages
    requires a in s.spans && a in s.page
  {
    s.(spans := s.spans - {a}, page := s.page - {a},
       table := s.table - Range(s.page[a], s.page[a] + s.spans[a].pages, a).Keys)
  }

  lemma {:induction false} UnmappingOk(s: Pages, a: nat)
    requires s.Ok() && a in s.spans && a !in s.home
    ensures a in s.page && a !in s.place && Unmapping(s, a).Ok() && Unmapping(s, a).Used() == s.Used() - {a}
  {
    assert s.SpanOk(a);
    assert a !in s.place || s.PooledOk(s.place[a].0, s.place[a].1);
    UnmappingParts(s, a);
    UnmappingTable(s, a);
  }

  lemma {:induction false} UnmappingParts(s: Pages, a: nat)
    requires s.Ok() && a in s.spans && a !in s.home && a in s.page && a !in s.place
    ensures Unmapping(s, a).SpansOk() && Unmapping(s, a).ChunksOk() && Unmapping(s, a).PoolOk()
  {
    hide Pages.TableOk;
    var s' := Unmapping(s, a);
    forall b | b in s'.spans ensures s'.SpanOk(b) { assert s.SpanOk(b); }
    forall c | c in s'.tiles ensures s'.ChunkOk(c) { ChunkKept(s, s', c); }
    forall p: nat, d: nat | p < |s'.pool| && d < |s'.pool[p]| ensures s'.PooledOk(p, d) { assert s.PooledOk(p, d); }
  }

  lemma {:induction false} UnmappingTable(s: Pages, a: nat)
    requires s.TableOk() && a in s.spans && a in s.page
    ensures Unmapping(s, a).TableOk()
  {
    var s' := Unmapping(s, a);
    forall b, k | s'.Covers(b, k) ensures k in s'.table && s'.table[k] == b {
      assert s.Covers(b, k);
      assert !s.Covers(a, k);
    }
    forall k | k in s'.table ensures s'.Covers(s'.table[k], k) {
      assert s.Covers(s.table[k], k);
      assert s.table[k] != a;
    }
  }

  // ---- a fresh chunk, carved ----

  /** A new chunk of n pages from page c on whose first p pages are span a, in use, and whose rest
      is span r, not yet in a bin. */
  ghost predicate Carved(s: Pages, t: Pages, c: nat, n: nat, p: nat, a: nat, r: nat) {
    t.pageSize == s.pageSize && a in t.spans && r in t.spans && p <= n &&
    t.spans == s.spans[a := Phys(r, 0, t.spans[a].bin, Times(c, s.pageSize), p)]
                      [r := Phys(0, a, t.spans[r].bin, Times(c, s.pageSize) + Times(p, s.pageSize), n - p)] &&
    t.page == s.page[a := c][r := c + p] && t.table == s.table + Range(c, c + p, a) + Range(c + p, c + n, r) &&
    t.tiles == s.tiles[c := [a, r]] && t.size == s.size[c := n] && t.home == s.home[a := c][r := c] &&
    t.heads == s.heads && t.bits == s.bits && t.pool == s.pool && t.place == s.place
  }

  lemma {:induction false} IsSplit(s: Pages, a: nat, i: nat, r: nat, p: nat, g: nat, t: Pages)
    requires CanSplit(s, a, i, r, p)
    requires t.spans == SplitSpans(s, a, r, p, g) && t.page == s.page[r := s.page[a] + p] &&
      t.home == s.home[r := s.home[a]]
    requires t.tiles == s.tiles[s.home[a] := Inserted(s.tiles[s.home[a]], i, r)]
    requires t.table == s.table + Range(s.page[a] + p, s.page[a] + s.spans[a].pages, r)
    requires t.pageSize == s.pageSize && t.heads == s.heads && t.bits == s.bits && t.pool == s.pool &&
      t.place == s.place && t.size == s.size
    ensures t == Split(s, a, i, r, p, g)
  {
    hide Range, SplitSpans, Inserted;
  }

  lemma {:induction false} CarvedOk(s: Pages, t: Pages, c: nat, n: nat, p: nat, a: nat, r: nat)
    requires CanMap(s, c, n, a) && 0 < p < n < MAX_BINNED_PAGES && r !in s.spans && r != 0 && r != a &&
      Carved(s, t, c, n, p, a, r)
    ensures t.Ok() && t.Used() == s.Used() + {a, r}
  {
    hide Pages.SpansOk, Pages.TableOk, Pages.ChunksOk, Pages.PoolOk, SplitSpans, Range, NewMapping, Carved;
    CarvedFacts(s, t, c, n, p, a, r);
    var links := Phys(0, 0, t.spans[a].bin, 0, 0);
    var m := NewMapping(s, c, n, a, links);
    CarvedSplittable(s, c, n, p, a, r, links);
    SplitOk(m, a, 0, r, p, t.spans[r].bin);
    CarvedIsSplit(s, t, c, n, p, a, r, links);
  }

  lemma {:induction false} CarvedSplittable(s: Pages, c: nat, n: nat, p: nat, a: nat, r: nat, links: Phys)
    requires CanMap(s, c, n, a) && 0 < p < n < MAX_BINNED_PAGES && r !in s.spans && r != 0 && r != a
    ensures CanSplit(NewMapping(s, c, n, a, links), a, 0, r, p)
    ensures NewMapping(s, c, n, a, links).Used() == s.Used() + {a}
  {
    hide Pages.SpansOk, Pages.TableOk, Pages.ChunksOk, Pages.PoolOk, Range, NewMapping;
    var m := NewMapping(s, c, n, a, links);
    NewMappingOk(s, c, n, a, links);
    NewFacts(s, c, n, a, links);
    PageKeys(m);
  }

  lemma {:induction false} CarvedFacts(s: Pages, t: Pages, c: nat, n: nat, p: nat, a: nat, r: nat)
    requires CanMap(s, c, n, a) && 0 < p < n < MAX_BINNED_PAGES && r !in s.spans && r != 0 && r != a &&
      Carved(s, t, c, n, p, a, r)
    ensures r in t.home && r in t.spans && t.spans[r].pages == n - p && a in t.spans && t.spans[a].pages == p &&
      a in t.page
    ensures t.spans.Keys == s.spans.Keys + {a, r} && t.tiles.Keys == s.tiles.Keys + {c} && t.place == s.place &&
      t.pageSize == s.pageSize
    ensures r !in t.place && a !in s.place && SameUsed(s, t, {}) && c !in s.tiles && t.size == s.size[c := n]
  {
    hide Pages.SpansOk, Pages.TableOk, Pages.ChunksOk, Range;
    NewNames(s, c, n, a);
    PageKeys(s);
    assert r !in s.place || s.PooledOk(s.place[r].0, s.place[r].1);
  }

  lemma {:induction false} CarvedIsSplit(s: Pages, t: Pages, c: nat, n: nat, p: nat, a: nat, r: nat, links: Phys)
    requires CanMap(s, c, n, a) && 0 < p < n < MAX_BINNED_PAGES && r !in s.spans && r != 0 && r != a &&
      Carved(s, t, c, n, p, a, r)
    requires a in t.spans && r in t.spans
    requires links == Phys(0, 0, t.spans[a].bin, 0, 0) && CanSplit(NewMapping(s, c, n, a, links), a, 0, r, p)
    ensures t == Split(NewMapping(s, c, n, a, links), a, 0, r, p, t.spans[r].bin)
  {
    hide Pages.SpansOk, Pages.TableOk, Pages.ChunksOk, Pages.PoolOk, Range, NewMapping, Split, CanSplit, Carved;
    var m := NewMapping(s, c, n, a, links);
    NewFacts(s, c, n, a, links);
    CarvedSpans(s, t, c, n, p, a, r, links);
    TwoRanges(s.table, c, p, n, a, r);
    CarvedRest(s, t, c, n, p, a, r, links);
    IsSplit(m, a, 0, r, p, t.spans[r].bin, t);
  }

  lemma {:induction false} TwoRanges(table: map<nat, nat>, c: nat, p: nat, n: nat, a: nat, r: nat)
    requires p <= n
    ensures table + Range(c, c + p, a) + Range(c + p, c + n, r) == table + Range(c, c + n, a) + Range(c + p, c + n, r)
  {
    var x := table + Range(c, c + p, a) + Range(c + p, c + n, r);
    var y := table + Range(c, c + n, a) + Range(c + p, c + n, r);
    forall k ensures (k in x <==> k in y) && (k in x ==> x[k] == y[k]) {}
  }

  lemma {:induction false} CarvedSpans(s: Pages, t: Pages, c: nat, n: nat, p: nat, a: nat, r: nat, links: Phys)
    requires CanMap(s, c, n, a) && 0 < p < n < MAX_BINNED_PAGES && r !in s.spans && r != 0 && r != a &&
      Carved(s, t, c, n, p, a, r)
    requires links == Phys(0, 0, t.spans[a].bin, 0, 0) && a in NewMapping(s, c, n, a, links).spans &&
      p <= NewMapping(s, c, n, a, links).spans[a].pages
    ensures t.spans == SplitSpans(NewMapping(s, c, n, a, links), a, r, p, t.spans[r].bin)
  {
    hide Pages.SpansOk, Pages.TableOk, Pages.ChunksOk, Pages.PoolOk, Range;
  }

  lemma {:induction false} CarvedRest(s: Pages, t: Pages, c: nat, n: nat, p: nat, a: nat, r: nat, links: Phys)
    requires CanMap(s, c, n, a) && 0 < p < n < MAX_BINNED_PAGES && Carved(s, t, c, n, p, a, r)
    ensures var m := NewMapping(s, c, n, a, links);
      a in m.page && a in m.home && m.home[a] == c && c in m.tiles && m.tiles[c] == [a] && m.page[a] == c &&
      t.page == m.page[r := c + p] && t.home == m.home[r := c] && t.tiles == m.tiles[c := Inserted([a], 0, r)] &&
      t.pageSize == m.pageSize && t.heads == m.heads && t.bits == m.bits && t.pool == m.pool && t.place == m.place &&
      t.size == m.size &&
      t.table == s.table + Range(c, c + p, a) + Range(c + p, c + n, r)
  {
    hide Pages.SpansOk, Pages.TableOk, Pages.ChunksOk, Pages.PoolOk, Range;
    assert Inserted([a], 0, r) == [a, r];
  }

  /** The pages of a chunk's spans lie in its region. */
  lemma {:induction false} RegionsCarved(s: Pages, t: Pages, c: nat, n: nat, p: nat, a: nat, r: nat,
          mapped: map<nat, nat>, chunks: set<nat>)
    requires CanMap(s, c, n, a) && r !in s.spans && r != a && Carved(s, t, c, n, p, a, r) && r !in s.home &&
      a !in s.home
    requires Regions(s, mapped - {Times(c, s.pageSize)}, chunks)
    requires Times(c, s.pageSize) in mapped && mapped[Times(c, s.pageSize)] == Times(n, s.pageSize) &&
      Times(c, s.pageSize) !in chunks
    ensures Regions(t, mapped, chunks)
  {
    hide Pages.TableOk, Pages.PoolOk, Range;
    NewNames(s, c, n, a);
    forall b | b in t.spans ensures RegionOk(t, mapped, chunks, b) {
      if b != a && b != r {
        assert RegionOk(s, mapped - {Times(c, s.pageSize)}, chunks, b);
        assert s.SpanOk(b);
      }
    }
    KnownGrow(s, t, mapped, chunks, c, a);
  }

  /** With the new region's span, all regions have one. */
  lemma {:induction false} KnownGrow(s: Pages, t: Pages, mapped: map<nat, nat>, chunks: set<nat>, c: nat, a: nat)
    requires Regions(s, mapped - {Times(c, s.pageSize)}, chunks) && t.pageSize == s.pageSize && a in t.spans &&
      RegionStart(t, a) == c
    requires forall b :: b in s.spans ==> b in t.spans && RegionStart(t, b) == RegionStart(s, b)
    ensures forall b {:trigger RegionKnown(t, b)} :: b in mapped && b !in chunks ==> RegionKnown(t, b)
  {
    forall b | b in mapped && b !in chunks ensures RegionKnown(t, b) {
      if b == Times(c, s.pageSize) {
        assert RegionAt(t, a, b);
      } else {
        assert RegionKnown(s, b);
        var w :| RegionAt(s, w, b);
        assert RegionAt(t, w, b);
      }
    }
  }

  lemma {:induction false} KnownSame(s: Pages, t: Pages, mapped: map<nat, nat>, chunks: set<nat>)
    requires Regions(s, mapped, chunks) && t.pageSize == s.pageSize
    requires forall b :: b in s.spans ==> b in t.spans && RegionStart(t, b) == RegionStart(s, b)
    ensures forall b {:trigger RegionKnown(t, b)} :: b in mapped && b !in chunks ==> RegionKnown(t, b)
  {
    forall b | b in mapped && b !in chunks ensures RegionKnown(t, b) {
      assert RegionKnown(s, b);
      var w :| RegionAt(s, w, b);
      assert RegionAt(t, w, b);
    }
  }

  // ---- what allocation and caching mean to a client ----

  /** The span handed out is the smallest cached one that fits, if any does, and of these the first in the bin. */
  ghost predicate BestFit(s: Pages, a: nat, n: nat) {
    n < MAX_BINNED_PAGES ==> forall b :: b in s.place && b in s.spans && s.spans[b].pages >= n ==>
      a in s.place && a in s.spans && n <= s.spans[a].pages <= s.spans[b].pages && HeadsBin(s, a)
  }

  ghost predicate HeadsBin(s: Pages, a: nat)
    requires a in s.spans
  {
    s.spans[a].pages < |s.heads| && s.heads[s.spans[a].pages] == a
  }

  /** Span a of n pages has come into use; the others in use are where they were. */
  ghost predicate Allocated(s: Pages, s': Pages, a: nat, n: nat) {
    s'.Ok() && s'.pageSize == s.pageSize && a !in s.Used() && a in s'.spans && a in s'.page && s'.spans[a].pages == n &&
    s'.Used() == s.Used() + {a} && SameUsed(s, s', {}) && BestFit(s, a, n) && ChunksGrown(s, s', a, n) &&
    PoolAfter(s, s', a)
  }

  /** The pages of a chunk mapped for a span of n pages. */
  ghost function ChunkPageCount(n: nat, pageSize: nat): nat {
    if pageSize > 0 && n <= Quotient(DATA_CHUNK_SIZE, pageSize) then Quotient(DATA_CHUNK_SIZE, pageSize) else n
  }

  /** A chunk is added exactly for a binned span that the pool did not have, which begins the chunk. */
  ghost predicate ChunksGrown(s: Pages, s': Pages, a: nat, n: nat) {
    if a in s.place || n >= MAX_BINNED_PAGES then s'.size == s.size
    else
      a in s'.page && s'.page[a] !in s.size && s'.size == s.size[s'.page[a] := ChunkPageCount(n, s.pageSize)]
  }

  /** A cached span keeps its first pages when it comes into use. The other cached spans stay as they are. If
      there is a new one, it is what is left behind span a of the cached span or of the new chunk. */
  ghost predicate PoolAfter(s: Pages, s': Pages, a: nat) {
    (a in s.place ==> a in s.page && a in s'.page && s'.page[a] == s.page[a]) &&
    (forall b {:trigger s'.place[b]} {:trigger s.place[b]} :: b in s.place && b != a ==> CachedAlike(s, s', b)) &&
    (forall b {:trigger s'.place[b]} :: b in s'.place && b !in s.place ==> Remainder(s, s', a, b))
  }

  ghost predicate CachedAlike(s: Pages, s': Pages, b: nat) {
    b in s'.place && b in s.page && b in s'.page && s'.page[b] == s.page[b] && s'.End(b) == s.End(b)
  }

  ghost predicate Remainder(s: Pages, s': Pages, a: nat, b: nat) {
    a in s'.page && b in s'.page && s'.page[b] == s'.End(a) &&
    s'.End(b) == if a in s.place then s.End(a) else s'.page[a] + At(s'.size, s'.page[a])
  }

  /** The size of a new chunk: the standard 32 MiB in pages, or the pages of a span that needs more. */
  lemma {:induction false} ChunkSize(n: nat, pageSize: nat)
    requires pageSize > 0
    ensures var k := ChunkPageCount(n, pageSize);
      n <= k && Times(k + 1, pageSize) > 0x200_0000 && (Times(k, pageSize) > 0x200_0000 ==> k == n)
  {
    var q := Quotient(DATA_CHUNK_SIZE, pageSize);
    QuotientBounds(DATA_CHUNK_SIZE, pageSize);
    TimesMono(q + 1, ChunkPageCount(n, pageSize) + 1, pageSize);
  }

  /** Span a has gone out of use; the others in use are where they were. */
  ghost predicate Released(s: Pages, s': Pages, a: nat) {
    s'.Ok() && s'.pageSize == s.pageSize && s'.Used() == s.Used() - {a} && SameUsed(s, s', {a}) &&
    s'.spans.Keys <= s.spans.Keys && s'.size == s.size
  }

  /** What the search through the bitmap finds is a best fit. */
  lemma {:induction false} FoundBestFit(s: Pages, q: nat, n: nat)
    requires s.Ok() && q in s.bits && n <= q && forall p :: p in s.bits && n <= p ==> q <= p
    ensures q < MAX_BINNED_PAGES && s.pool[q] != [] && BestFit(s, Last(s.pool[q]), n)
  {
    hide Pages.SpansOk, Pages.TableOk, Pages.ChunksOk;
    TakenOk(s, q);
    forall b | b in s.place && b in s.spans && s.spans[b].pages >= n ensures q <= s.spans[b].pages {
      assert s.PooledOk(s.place[b].0, s.place[b].1) && s.place[b].0 in s.bits;
    }
  }

  lemma {:induction false} NothingFits(s: Pages, a: nat, n: nat)
    requires s.Ok() && forall p :: p in s.bits ==> p < n
    ensures BestFit(s, a, n)
  {
    hide Pages.SpansOk, Pages.TableOk, Pages.ChunksOk;
    forall b | b in s.place && b in s.spans ensures s.spans[b].pages < n {
      assert s.PooledOk(s.place[b].0, s.place[b].1) && s.place[b].0 in s.bits;
    }
  }

  lemma {:induction false} ChunkKeys(s: Pages)
    requires s.ChunksOk()
    ensures s.tiles.Keys == s.size.Keys
  {}

  lemma {:induction false} TakenAllocated(s: Pages, n: nat)
    requires s.Ok() && n < MAX_BINNED_PAGES && s.pool[n] != [] && BestFit(s, Last(s.pool[n]), n)
    ensures |s.heads| == |s.pool| == MAX_BINNED_PAGES && Allocated(s, Taken(s, n), Last(s.pool[n]), n)
    ensures Last(s.pool[n]) in s.spans && SamePlaces(s, Taken(s, n)) && Taken(s, n).table == s.table
  {
    hide Pages.TableOk, Pages.ChunksOk, Pages.PoolOk;
    PoolSize(s);
    TakenOk(s, n);
    CachedThere(s);
  }

  lemma {:induction false} CachedThere(s: Pages)
    requires s.Ok()
    ensures forall b {:trigger s.place[b]} {:trigger b in s.place} ::
      b in s.place ==> b in s.spans && b in s.page && b in s.home
  {
    hide Pages.TableOk, Pages.ChunksOk;
    forall b | b in s.place ensures b in s.spans && b in s.page && b in s.home {
      assert s.PooledOk(s.place[b].0, s.place[b].1);
    }
  }

  lemma {:induction false} CutAllocated(s: Pages, q: nat, s': Pages, r: nat, n: nat)
    requires s.Ok() && q < MAX_BINNED_PAGES && s.pool[q] != [] && BestFit(s, Last(s.pool[q]), n)
    requires |s.heads| == |s.pool| == MAX_BINNED_PAGES && Cut(Taken(s, q), s', Last(s.pool[q]), r, n)
    ensures Allocated(s, s', Last(s.pool[q]), n) && s'.table.Keys == s.table.Keys && s'.tiles.Keys == s.tiles.Keys
  {
    hide Pages.TableOk, Pages.ChunksOk, Pages.PoolOk, Pages.SpansOk, Cut, BestFit, PoolAfter;
    TakenOk(s, q);
    CutOk(Taken(s, q), s', Last(s.pool[q]), r, n);
    CutSame(Taken(s, q), s', Last(s.pool[q]), r, n);
    CutPool(s, q, s', r, n);
  }

  lemma {:induction false} CutPool(s: Pages, q: nat, s': Pages, r: nat, n: nat)
    requires s.Ok() && q < MAX_BINNED_PAGES && s.pool[q] != []
    requires |s.heads| == |s.pool| == MAX_BINNED_PAGES && Cut(Taken(s, q), s', Last(s.pool[q]), r, n)
    ensures PoolAfter(s, s', Last(s.pool[q]))
  {
    hide Pages.TableOk, Pages.ChunksOk, Pages.PoolOk, Pages.SpansOk, SplitSpans, Range, Inserted, Split, Given;
    var a := Last(s.pool[q]);
    CachedThere(s);
    TakenOk(s, q);
    var i: nat, g: nat :| CutBy(Taken(s, q), s', a, i, r, n, g);
    SplitKeys(Taken(s, q), a, i, r, n, g);
    SplitFields(Taken(s, q), a, i, r, n, g);
    PageKeys(Taken(s, q));
    GivenFields(Split(Taken(s, q), a, i, r, n, g), r);
  }

  lemma {:induction false} NewAllocated(s: Pages, c: nat, n: nat, a: nat, links: Phys)
    requires CanMap(s, c, n, a) && BestFit(s, a, n) && (n < MAX_BINNED_PAGES ==> n == ChunkPageCount(n, s.pageSize))
    ensures Allocated(s, NewMapping(s, c, n, a, links), a, n)
  {
    hide Pages.TableOk, Pages.ChunksOk, Pages.PoolOk, Pages.SpansOk, NewMapping, Range, BestFit, ChunkPageCount,
      PoolAfter;
    NewPoolAfter(s, c, n, a, links);
    PageKeys(s);
    ChunkKeys(s);
    NewMappingOk(s, c, n, a, links);
    NewFacts(s, c, n, a, links);
    NewNames(s, c, n, a);
  }

  lemma {:induction false} NewPoolAfter(s: Pages, c: nat, n: nat, a: nat, links: Phys)
    requires CanMap(s, c, n, a)
    ensures PoolAfter(s, NewMapping(s, c, n, a, links), a)
  {
    hide Pages.TableOk, Pages.ChunksOk, Pages.PoolOk, Pages.SpansOk, NewMapping, Range;
    CachedThere(s);
    NewNames(s, c, n, a);
    NewFacts(s, c, n, a, links);
  }

  lemma {:induction false} CarvedPool(s: Pages, t: Pages, c: nat, n: nat, p: nat, a: nat, r: nat)
    requires CanMap(s, c, n, a) && 0 < p < n < MAX_BINNED_PAGES && r !in s.spans && r != 0 && r != a &&
      Carved(s, t, c, n, p, a, r)
    requires r in t.spans && t.spans[r].pages < |t.pool| && |t.heads| == |t.pool|
    ensures PoolAfter(s, Given(t, r), a)
    ensures a in Given(t, r).page && Given(t, r).page[a] == c && Given(t, r).size == s.size[c := n]
  {
    hide Pages.TableOk, Pages.ChunksOk, Pages.PoolOk, Pages.SpansOk, Range;
    CachedThere(s);
    NewNames(s, c, n, a);
  }

  lemma {:induction false} CarvedAllocated(s: Pages, t: Pages, c: nat, n: nat, p: nat, a: nat, r: nat)
    requires CanMap(s, c, n, a) && 0 < p < n < MAX_BINNED_PAGES && r !in s.spans && r != 0 && r != a &&
      Carved(s, t, c, n, p, a, r)
    requires BestFit(s, a, p) && n == ChunkPageCount(p, s.pageSize)
    ensures r in t.spans && t.spans[r].pages < |t.pool| && |t.heads| == |t.pool| && Allocated(s, Given(t, r), a, p)
  {
    hide Pages.TableOk, Pages.ChunksOk, Pages.PoolOk, Pages.SpansOk, Carved, Range, BestFit, ChunkPageCount, PoolAfter;
    ChunkKeys(s);
    CarvedOk(s, t, c, n, p, a, r);
    CarvedFacts(s, t, c, n, p, a, r);
    PoolSize(t);
    GivenOk(t, r);
    CarvedPool(s, t, c, n, p, a, r);
  }

  lemma {:induction false} GivenReleased(s: Pages, a: nat)
    requires s.Ok() && a in s.home && a in s.Used()
    ensures a in s.spans && s.spans[a].pages < |s.pool| && |s.heads| == |s.pool|
    ensures Released(s, Given(s, a), a) && SamePlaces(s, Given(s, a)) && Given(s, a).table == s.table
  {
    hide Pages.TableOk, Pages.ChunksOk, Pages.PoolOk;
    PoolSize(s);
    GivenOk(s, a);
  }

  lemma {:induction false} UnmappingReleased(s: Pages, a: nat)
    requires s.Ok() && a in s.Used() && a !in s.home
    ensures a in s.spans && a in s.page && Released(s, Unmapping(s, a), a)
  {
    UnmappingOk(s, a);
  }

  /** Pages of spans that stay in use keep their spans. */
  lemma {:induction false} UsedPagesStay(s: Pages, s': Pages, except: set<nat>, k: nat)
    requires s.TableOk() && s'.TableOk() && SameUsed(s, s', except) && k in s.table && s.table[k] in s.Used() &&
      s.table[k] !in except
    ensures k in s'.table && s'.table[k] == s.table[k]
  {
    assert s.Covers(s.table[k], k);
    assert s'.Covers(s.table[k], k);
  }

  // ---- bytes of user memory ----

  ghost predicate InPage(size: nat, k: nat, x: nat) {
    Times(k, size) <= x < Times(k, size) + size
  }

  /** Every byte of these pages is there. */
  ghost predicate BytesOk(size: nat, pages: set<nat>, bytes: map<nat, nat>) {
    forall k, x {:trigger InPage(size, k, x)} :: k in pages && InPage(size, k, x) ==> x in bytes
  }

  /** The bytes of these pages have not changed. */
  ghost predicate BytesSame(size: nat, pages: set<nat>, bytes: map<nat, nat>, bytes': map<nat, nat>) {
    forall k, x {:trigger InPage(size, k, x)} ::
      k in pages && InPage(size, k, x) && x in bytes ==> x in bytes' && bytes'[x] == bytes[x]
  }

  /** Zero-filling n pages from page c on does not touch other pages. */
  lemma {:induction false} BytesGrow(size: nat, pages: set<nat>, bytes: map<nat, nat>, c: nat, n: nat)
    requires BytesOk(size, pages, bytes) && size > 0 && forall k :: c <= k < c + n ==> k !in pages
    ensures var bytes' := bytes + Range(Times(c, size), Times(c, size) + Times(n, size), 0);
      BytesSame(size, pages, bytes, bytes') && BytesOk(size, pages + Range(c, c + n, 0).Keys, bytes')
  {
    var bytes' := bytes + Range(Times(c, size), Times(c, size) + Times(n, size), 0);
    forall k, x | k in pages + Range(c, c + n, 0).Keys && InPage(size, k, x)
      ensures x in bytes' && (k in pages && x in bytes ==> bytes'[x] == bytes[x])
    {
      PageInRegion(size, k, x, c, n);
    }
  }

  /** A byte of page k lies in the n pages from c on exactly if k is one of them. */
  lemma {:induction false} PageInRegion(size: nat, k: nat, x: nat, c: nat, n: nat)
    requires size > 0 && InPage(size, k, x)
    ensures Times(c, size) <= x < Times(c, size) + Times(n, size) <==> c <= k < c + n
  {
    TimesAdd(c, n, size);
    if k < c { TimesGap(k, c, size); }
    if c < k { TimesGap(c, k, size); }
    if k < c + n { TimesGap(k, c + n, size); }
    if c + n < k { TimesGap(c + n, k, size); }
  }

  lemma {:induction false} BytesShrink(size: nat, pages: set<nat>, bytes: map<nat, nat>, c: nat, n: nat)
    requires BytesOk(size, pages, bytes) && size > 0
    ensures var bytes' := bytes - Range(Times(c, size), Times(c, size) + Times(n, size), 0).Keys;
      var pages' := pages - Range(c, c + n, 0).Keys;
      BytesSame(size, pages', bytes, bytes') && BytesOk(size, pages', bytes')
  {
    var bytes' := bytes - Range(Times(c, size), Times(c, size) + Times(n, size), 0).Keys;
    forall k, x | k in pages - Range(c, c + n, 0).Keys && InPage(size, k, x)
      ensures x in bytes' && (x in bytes ==> bytes'[x] == bytes[x])
    {
      PageInRegion(size, k, x, c, n);
    }
  }

  // ---- spans and the kernel's regions ----

  /** The region a span lies in: its chunk, or its own mapping. */
  ghost function RegionStart(s: Pages, a: nat): nat {
    if a in s.home then s.home[a] else if a in s.page then s.page[a] else 0
  }

  ghost function RegionPages(s: Pages, a: nat): nat {
    if a in s.home then (if s.home[a] in s.size then s.size[s.home[a]] else 0)
    else if a in s.spans then s.spans[a].pages else 0
  }

  /** Every span lies in a mapped region that is not one of the metadata chunks, and every mapped region
      but the metadata chunks has a span in it. */
  ghost predicate Regions(s: Pages, mapped: map<nat, nat>, chunks: set<nat>) {
    chunks <= mapped.Keys &&
    (forall a {:trigger RegionOk(s, mapped, chunks, a)} :: a in s.spans ==> RegionOk(s, mapped, chunks, a)) &&
    (forall b {:trigger RegionKnown(s, b)} :: b in mapped && b !in chunks ==> RegionKnown(s, b))
  }

  ghost predicate RegionKnown(s: Pages, b: nat) {
    exists a :: RegionAt(s, a, b)
  }

  ghost predicate RegionAt(s: Pages, a: nat, b: nat) {
    a in s.spans && b == Times(RegionStart(s, a), s.pageSize)
  }

  /** The kernel's regions are the metadata chunks, the data chunks and the mappings of their own of
      spans too large for a bin, and there is no other. */
  lemma {:induction false} MappedExactly(s: Pages, mapped: map<nat, nat>, chunks: set<nat>)
    requires s.Ok() && Regions(s, mapped, chunks)
    ensures mapped.Keys == chunks + DataRegions(s) && chunks !! DataRegions(s)
  {
    hide Pages.TableOk, Pages.PoolOk;
    forall b ensures b in DataRegions(s) <==> b in mapped && b !in chunks {
      if b in mapped && b !in chunks {
        assert RegionKnown(s, b);
        var a :| RegionAt(s, a, b);
        assert s.SpanOk(a);
      }
      if b in DataRegions(s) { RegionSpan(s, mapped, chunks, b); }
    }
  }

  ghost function DataRegions(s: Pages): set<nat> {
    (set c | c in s.tiles :: Times(c, s.pageSize)) + (set a | a in s.spans && a !in s.home :: s.spans[a].base)
  }

  lemma {:induction false} RegionSpan(s: Pages, mapped: map<nat, nat>, chunks: set<nat>, b: nat)
    requires s.Ok() && Regions(s, mapped, chunks) && b in DataRegions(s)
    ensures b in mapped && b !in chunks
  {
    hide Pages.TableOk, Pages.PoolOk;
    if c :| c in s.tiles && b == Times(c, s.pageSize) {
      assert s.ChunkOk(c) && s.TileOk(c, 0);
      assert RegionOk(s, mapped, chunks, s.tiles[c][0]);
    } else {
      var a :| a in s.spans && a !in s.home && b == s.spans[a].base;
      assert s.SpanOk(a) && RegionOk(s, mapped, chunks, a);
    }
  }

  ghost predicate RegionOk(s: Pages, mapped: map<nat, nat>, chunks: set<nat>, a: nat) {
    var b := Times(RegionStart(s, a), s.pageSize);
    b in mapped && mapped[b] == Times(RegionPages(s, a), s.pageSize) && b !in chunks
  }

  /** A span lies between the ends of its region. */
  lemma {:induction false} SpanInRegion(s: Pages, a: nat)
    requires s.Ok() && a in s.spans
    ensures a in s.page && RegionStart(s, a) <= s.page[a]
    ensures s.page[a] + s.spans[a].pages <= RegionStart(s, a) + RegionPages(s, a)
  {
    assert s.SpanOk(a);
    if a in s.home {
      var c := s.home[a];
      var i :| 0 <= i < |s.tiles[c]| && s.tiles[c][i] == a;
      TileInChunk(s, c, i);
    }
  }

  lemma {:induction false} TileInChunk(s: Pages, c: nat, i: nat)
    requires s.SpansOk() && s.ChunksOk() && c in s.tiles && i < |s.tiles[c]|
    ensures s.TileOk(c, i) && c <= s.page[s.tiles[c][i]] && s.End(s.tiles[c][i]) <= c + s.size[c]
    ensures s.SpanOk(s.tiles[c][i])
  {
    hide Pages.TableOk, Pages.PoolOk;
    var n := |s.tiles[c]| - 1;
    assert s.ChunkOk(c) && s.TileOk(c, i) && s.TileOk(c, 0) && s.TileOk(c, n);
    assert s.SpanOk(s.tiles[c][i]);
    if i > 0 { TilesGrow(s, c, 0, i); }
    if i < n { TilesGrow2(s, c, i, n); }
  }

  /** A tile ends at or before the start of a later one. */
  lemma {:induction false} TilesGrow2(s: Pages, c: nat, i: nat, j: nat)
    requires s.SpansOk() && s.ChunksOk() && c in s.tiles && i < j < |s.tiles[c]|
    ensures s.TileOk(c, i) && s.TileOk(c, j) && s.End(s.tiles[c][i]) <= s.page[s.tiles[c][j]] < s.End(s.tiles[c][j])
    decreases j
  {
    hide Pages.TableOk, Pages.PoolOk;
    assert s.ChunkOk(c);
    assert s.TileOk(c, i) && s.TileOk(c, j) && s.TileOk(c, j - 1);
    assert s.SpanOk(s.tiles[c][j - 1]) && s.SpanOk(s.tiles[c][i]) && s.SpanOk(s.tiles[c][j]);
    if i < j - 1 { TilesGrow2(s, c, i, j - 1); }
  }

  lemma {:induction false} TimesMono(m: nat, n: nat, d: nat)
    requires m <= n
    ensures Times(m, d) <= Times(n, d)
  {
    if m < n { TimesGap(m, n, d); }
  }

  /** The pages of a region the kernel has just mapped are not yet in the table, and have keys the
      page map can hold. */
  lemma {:induction false} FreshPages(s: Pages, mapped: map<nat, nat>, chunks: set<nat>, c: nat, n: nat)
    requires s.Ok() && 4096 <= s.pageSize && Regions(s, mapped, chunks) && Times(c, s.pageSize) !in mapped && n > 0
    requires RegionsOk(mapped[Times(c, s.pageSize) := Times(n, s.pageSize)])
    ensures 0 < c && c + n <= KEY_LIMIT && forall k :: c <= k < c + n ==> k !in s.table
  {
    var b := Times(c, s.pageSize);
    var m' := mapped[b := Times(n, s.pageSize)];
    assert b in m';
    TimesAdd(c, n, s.pageSize);
    TimesIsProduct(c + n, s.pageSize);
    PageBound(c + n, s.pageSize);
    forall k | c <= k < c + n ensures k !in s.table {
      KeyFresh(s, mapped, chunks, c, n, k);
    }
  }

  lemma {:induction false} PageBound(n: nat, d: nat)
    requires 4096 <= d && n * d <= ADDRESS_LIMIT
    ensures n <= KEY_LIMIT
  {
    var e := d - 4096;
    assert n * d == n * 4096 + n * e;
    assert n * e >= 0;
  }

  /** A page in the table lies in a region that was mapped before. */
  lemma {:induction false} KeyFresh(s: Pages, mapped: map<nat, nat>, chunks: set<nat>, c: nat, n: nat, k: nat)
    requires s.Ok() && Regions(s, mapped, chunks) && Times(c, s.pageSize) !in mapped && n > 0
    requires RegionsOk(mapped[Times(c, s.pageSize) := Times(n, s.pageSize)])
    requires c <= k < c + n
    ensures k !in s.table
  {
    if k in s.table {
      var a := s.table[k];
      assert s.Covers(a, k);
      assert !CoveredFresh(s, mapped, chunks, c, n, k, a) by { NotCoveredFresh(s, mapped, chunks, c, n, k, a); }
    }
  }

  ghost predicate CoveredFresh(s: Pages, mapped: map<nat, nat>, chunks: set<nat>, c: nat, n: nat, k: nat, a: nat) {
    s.Covers(a, k) && c <= k < c + n
  }

  /** A span of a region mapped before covers no page of the new region. */
  lemma {:induction false} NotCoveredFresh(s: Pages, mapped: map<nat, nat>, chunks: set<nat>, c: nat, n: nat, k: nat,
          a: nat)
    requires s.Ok() && Regions(s, mapped, chunks) && Times(c, s.pageSize) !in mapped && n > 0
    requires RegionsOk(mapped[Times(c, s.pageSize) := Times(n, s.pageSize)]) && a in s.spans
    ensures !CoveredFresh(s, mapped, chunks, c, n, k, a)
  {
    hide Pages.ChunksOk, Pages.PoolOk;
    SpanInRegion(s, a);
    assert RegionOk(s, mapped, chunks, a);
    var f, m, ps := RegionStart(s, a), RegionPages(s, a), s.pageSize;
    var m' := mapped[Times(c, ps) := Times(n, ps)];
    assert Apart(Times(f, ps), m'[Times(f, ps)], Times(c, ps), m'[Times(c, ps)]);
    TimesAdd(f, m, ps);
    TimesAdd(c, n, ps);
    // disjoint byte ranges: one region ends, in pages too, before the other begins
    if f + m > c { TimesGap(c, f + m, ps); }
    if c + n > f { TimesGap(f, c + n, ps); }
  }

  /** More mapped regions, those of the metadata arena among the chunks. */
  lemma {:induction false} RegionsGrow(s: Pages, mapped: map<nat, nat>, chunks: set<nat>, mapped': map<nat, nat>,
          chunks': set<nat>)
    requires Regions(s, mapped, chunks) && Extends(mapped, mapped') && chunks' == chunks + (mapped'.Keys - mapped.Keys)
    ensures Regions(s, mapped', chunks')
  {
    forall a | a in s.spans ensures RegionOk(s, mapped', chunks', a) { assert RegionOk(s, mapped, chunks, a); }
  }

  /** The pool does not matter to regions. */
  lemma {:induction false} RegionsSame(s: Pages, s': Pages, mapped: map<nat, nat>, chunks: set<nat>)
    requires Regions(s, mapped, chunks) && SamePlaces(s, s')
    ensures Regions(s', mapped, chunks)
  {
    forall a | a in s'.spans ensures RegionOk(s', mapped, chunks, a) { assert RegionOk(s, mapped, chunks, a); }
    KnownSame(s, s', mapped, chunks);
  }

  lemma {:induction false} RegionsCut(s: Pages, s': Pages, a: nat, r: nat, p: nat, mapped: map<nat, nat>,
          chunks: set<nat>)
    requires Regions(s, mapped, chunks) && Cut(s, s', a, r, p)
    ensures Regions(s', mapped, chunks)
  {
    hide Pages.SpansOk, Pages.TableOk, Pages.ChunksOk, Pages.PoolOk, SplitSpans;
    var i: nat, g: nat :| CutBy(s, s', a, i, r, p, g);
    SplitKeys(s, a, i, r, p, g);
    var t := Split(s, a, i, r, p, g);
    forall b | b in s'.spans ensures RegionOk(s', mapped, chunks, b) {
      if b == r { assert RegionOk(s, mapped, chunks, a); } else { assert RegionOk(s, mapped, chunks, b); }
    }
    KnownSame(s, s', mapped, chunks);
  }

  lemma {:induction false} RegionsNew(s: Pages, c: nat, n: nat, a: nat, links: Phys, mapped: map<nat, nat>,
          chunks: set<nat>)
    requires CanMap(s, c, n, a) && Regions(s, mapped - {Times(c, s.pageSize)}, chunks)
    requires Times(c, s.pageSize) in mapped && mapped[Times(c, s.pageSize)] == Times(n, s.pageSize) &&
      Times(c, s.pageSize) !in chunks
    ensures Regions(NewMapping(s, c, n, a, links), mapped, chunks)
  {
    hide Pages.TableOk, Pages.ChunksOk, Pages.PoolOk, Range, NewMapping;
    var s' := NewMapping(s, c, n, a, links);
    NewNames(s, c, n, a);
    NewFacts(s, c, n, a, links);
    forall b | b in s'.spans ensures RegionOk(s', mapped, chunks, b) {
      if b != a {
        assert RegionOk(s, mapped - {Times(c, s.pageSize)}, chunks, b);
        assert s.SpanOk(b);
      }
    }
    KnownGrow(s, s', mapped, chunks, c, a);
  }

  /** Unmapping a span's own region leaves the other spans' regions. */
  lemma {:induction false} RegionsDrop(s: Pages, a: nat, mapped: map<nat, nat>, chunks: set<nat>)
    requires s.Ok() && a in s.spans && a !in s.home && Regions(s, mapped, chunks) && a in s.page
    ensures Times(s.page[a], s.pageSize) in mapped &&
      mapped[Times(s.page[a], s.pageSize)] == Times(s.spans[a].pages, s.pageSize)
    ensures Times(s.page[a], s.pageSize) !in chunks
    ensures Regions(Unmapping(s, a), mapped - {Times(s.page[a], s.pageSize)}, chunks)
  {
    hide Pages.PoolOk, Range;
    assert RegionOk(s, mapped, chunks, a);
    var s' := Unmapping(s, a);
    forall b | b in s'.spans ensures RegionOk(s', mapped - {Times(s.page[a], s.pageSize)}, chunks, b) {
      assert RegionOk(s, mapped, chunks, b);
      assert RegionStart(s, b) != s.page[a] by { StartsDiffer(s, a, b); }
      if RegionStart(s, b) < s.page[a] {
        TimesGap(RegionStart(s, b), s.page[a], s.pageSize);
      } else {
        TimesGap(s.page[a], RegionStart(s, b), s.pageSize);
      }
    }
    KnownBut(s, s', mapped, chunks, a);
  }

  lemma {:induction false} KnownBut(s: Pages, t: Pages, mapped: map<nat, nat>, chunks: set<nat>, a: nat)
    requires Regions(s, mapped, chunks) && t.pageSize == s.pageSize
    requires forall b :: b in s.spans && b != a ==> b in t.spans && RegionStart(t, b) == RegionStart(s, b)
    ensures forall b {:trigger RegionKnown(t, b)} ::
      b in mapped && b !in chunks && b != Times(RegionStart(s, a), s.pageSize) ==> RegionKnown(t, b)
  {
    forall b | b in mapped && b !in chunks && b != Times(RegionStart(s, a), s.pageSize) ensures RegionKnown(t, b) {
      assert RegionKnown(s, b);
      var w :| RegionAt(s, w, b);
      assert RegionAt(t, w, b);
    }
  }

  /** Page k lies in the region at b, which holds no metadata. */
  ghost predicate InData(s: Pages, mapped: map<nat, nat>, chunks: set<nat>, k: nat, b: nat) {
    b in mapped && b !in chunks && b <= Times(k, s.pageSize) < b + mapped[b]
  }

  /** The page map's domain is exactly the pages of the regions that hold no metadata. */
  lemma {:induction false} PageMapDomain(s: Pages, mapped: map<nat, nat>, chunks: set<nat>, k: nat)
    requires s.Ok() && Regions(s, mapped, chunks)
    ensures k in s.table <==> exists b :: InData(s, mapped, chunks, k, b)
  {
    hide Pages.PoolOk, Pages.ChunksOk;
    if k in s.table {
      var a := s.table[k];
      assert s.Covers(a, k);
      SpanInRegion(s, a);
      assert RegionOk(s, mapped, chunks, a);
      PageInRegion(s.pageSize, k, Times(k, s.pageSize), RegionStart(s, a), RegionPages(s, a));
      assert InData(s, mapped, chunks, k, Times(RegionStart(s, a), s.pageSize));
    }
    forall b | InData(s, mapped, chunks, k, b) ensures k in s.table {
      assert RegionKnown(s, b);
      var a :| RegionAt(s, a, b);
      assert RegionOk(s, mapped, chunks, a);
      PageInRegion(s.pageSize, k, Times(k, s.pageSize), RegionStart(s, a), RegionPages(s, a));
      RegionFull(s, a, k);
    }
  }

  /** Every page of a span's region is in the page map. */
  lemma {:induction false} RegionFull(s: Pages, a: nat, k: nat)
    requires s.Ok() && a in s.spans && RegionStart(s, a) <= k < RegionStart(s, a) + RegionPages(s, a)
    ensures k in s.table
  {
    hide Pages.PoolOk;
    if a in s.home {
      assert s.ChunkOk(s.home[a]);
      TilesCover(s, s.home[a], |s.tiles[s.home[a]]|, k);
    } else {
      assert s.SpanOk(a) && s.Covers(a, k);
    }
  }

  /** The first n tiles of a chunk leave no page out. */
  lemma {:induction false} TilesCover(s: Pages, c: nat, n: nat, k: nat)
    requires s.Ok() && c in s.tiles && 0 < n <= |s.tiles[c]| && c <= k < s.End(s.tiles[c][n - 1])
    ensures k in s.table
  {
    hide Pages.PoolOk;
    assert s.ChunkOk(c) && s.TileOk(c, n - 1);
    if s.page[s.tiles[c][n - 1]] <= k {
      assert s.Covers(s.tiles[c][n - 1], k);
    } else {
      TilesCover(s, c, n - 1, k);
    }
  }

  lemma {:induction false} StartsDiffer(s: Pages, a: nat, b: nat)
    requires s.Ok() && a in s.spans && a !in s.home && b in s.spans && b != a && a in s.page
    ensures RegionStart(s, b) != s.page[a]
  {
    hide Pages.PoolOk;
    assert s.SpanOk(a) && s.SpanOk(b);
    assert s.Covers(a, s.page[a]);
    if b in s.home {
      var c := s.home[b];
      assert s.ChunkOk(c) && s.TileOk(c, 0);
      assert s.SpanOk(s.tiles[c][0]) && s.Covers(s.tiles[c][0], c);
    } else {
      assert s.Covers(b, s.page[b]);
    }
  }

  // ---- page conservation ----

  /** The sum of f over a finite set. */
  ghost function Sum(f: map<nat, nat>, keys: set<nat>): nat
    requires keys <= f.Keys
  {
    if keys == {} then 0 else
      var k :| k in keys;
      f[k] + Sum(f, keys - {k})
  }

  lemma {:induction false} SumSplit(f: map<nat, nat>, keys: set<nat>, k: nat)
    requires keys <= f.Keys && k in keys
    ensures Sum(f, keys) == f[k] + Sum(f, keys - {k})
  {
    var j :| j in keys && Sum(f, keys) == f[j] + Sum(f, keys - {j});
    if j != k {
      SumSplit(f, keys - {j}, k);
      SumSplit(f, keys - {k}, j);
      assert keys - {j} - {k} == keys - {k} - {j};
    }
  }

  lemma {:induction false} SumUnion(f: map<nat, nat>, a: set<nat>, b: set<nat>)
    requires a + b <= f.Keys && a !! b
    ensures Sum(f, a + b) == Sum(f, a) + Sum(f, b)
  {
    if a == {} {
      assert a + b == b;
    } else {
      var k :| k in a;
      SumUnion(f, a - {k}, b);
      SumSplit(f, a, k);
      SumSplit(f, a + b, k);
      assert a + b - {k} == (a - {k}) + b;
    }
  }

  ghost function Weights(s: Pages): map<nat, nat> {
    map a | a in s.spans :: s.spans[a].pages
  }

  /** The spans of the first n tiles of a chunk. */
  ghost function FirstTiles(s: Pages, c: nat, n: nat): set<nat>
    requires c in s.tiles && n <= |s.tiles[c]|
  {
    set i | 0 <= i < n :: s.tiles[c][i]
  }

  lemma {:induction false} TileSum(s: Pages, c: nat, n: nat)
    requires s.Ok() && c in s.tiles && 0 < n <= |s.tiles[c]|
    ensures FirstTiles(s, c, n) <= s.spans.Keys && c + Sum(Weights(s), FirstTiles(s, c, n)) == s.End(s.tiles[c][n - 1])
  {
    hide Pages.TableOk, Pages.PoolOk;
    assert s.ChunkOk(c) && s.TileOk(c, n - 1);
    TilesDistinct(s, c);
    var a := s.tiles[c][n - 1];
    var f := Weights(s);
    if n == 1 {
      assert FirstTiles(s, c, 1) == {a};
      SumSplit(f, {a}, a);
      assert {a} - {a} == {};
    } else {
      TileSum(s, c, n - 1);
      assert FirstTiles(s, c, n) - {a} == FirstTiles(s, c, n - 1);
      SumSplit(f, FirstTiles(s, c, n), a);
    }
  }

  /** The binned spans of some chunks. */
  ghost function SpansOf(s: Pages, chunks: set<nat>): set<nat> {
    set a | a in s.home && s.home[a] in chunks
  }

  lemma {:induction false} ChunkSum(s: Pages, chunks: set<nat>)
    requires s.Ok() && chunks <= s.tiles.Keys
    ensures SpansOf(s, chunks) <= s.spans.Keys && Sum(Weights(s), SpansOf(s, chunks)) == Sum(s.size, chunks)
  {
    hide Pages.TableOk, Pages.PoolOk;
    if chunks == {} {
      assert SpansOf(s, chunks) == {};
    } else {
      var c :| c in chunks;
      ChunkSum(s, chunks - {c});
      SumSplit(s.size, chunks, c);
      assert s.ChunkOk(c);
      TileSum(s, c, |s.tiles[c]|);
      OneChunk(s, c);
      assert SpansOf(s, chunks) == SpansOf(s, chunks - {c}) + SpansOf(s, {c});
      SumUnion(Weights(s), SpansOf(s, chunks - {c}), SpansOf(s, {c}));
    }
  }

  lemma {:induction false} OneChunk(s: Pages, c: nat)
    requires s.Ok() && c in s.tiles
    ensures SpansOf(s, {c}) == FirstTiles(s, c, |s.tiles[c]|)
  {
    assert s.ChunkOk(c);
    forall a ensures a in SpansOf(s, {c}) <==> a in FirstTiles(s, c, |s.tiles[c]|) {
      if a in FirstTiles(s, c, |s.tiles[c]|) {
        var i :| 0 <= i < |s.tiles[c]| && s.tiles[c][i] == a;
        assert s.TileOk(c, i);
      }
    }
  }

  /** The pages of the cached spans and of the binned spans in use are exactly the pages of the chunks. */
  lemma {:induction false} PagesConserved(s: Pages)
    requires s.Ok()
    ensures s.place.Keys <= s.home.Keys <= s.spans.Keys
    ensures Sum(Weights(s), s.place.Keys) + Sum(Weights(s), s.home.Keys - s.place.Keys) == Sum(s.size, s.tiles.Keys)
  {
    forall a | a in s.place ensures a in s.home { assert s.PooledOk(s.place[a].0, s.place[a].1); }
    ChunkSum(s, s.tiles.Keys);
    assert SpansOf(s, s.tiles.Keys) == s.home.Keys;
    SumUnion(Weights(s), s.place.Keys, s.home.Keys - s.place.Keys);
    assert s.place.Keys + (s.home.Keys - s.place.Keys) == s.home.Keys;
  }
}
