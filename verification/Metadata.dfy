/** src/metadata.c and src/range_map.c, which call each other: the metadata arena recycles trie
    nodes, and keeps the heads of its free lists in one of the tries it holds. */
module MetadataArena {
  import opened Linear
  import opened RangeMapSpec
  import opened MetadataState

  class Metadata {
    const pageSize: nat

    // the kernel's view: mapped regions, base to length
    var mapped: map<nat, nat>

    var mem: Mem
    // meta_arena, and cur and end of the chunk it points to
    var arena: nat
    var cur: nat
    var end: nat
    var freeListMap: nat

    ghost var own: map<nat, Role>
    ghost var shapes: map<nat, Shape>
    ghost var free: map<nat, seq<nat>>
    ghost var ext: map<nat, nat>
    ghost var home: map<nat, nat>
    ghost var chunks: set<nat>

    // keys a lock-free reader may be looking up, and every memory state since they are watched
    ghost var watchedRoot: nat
    ghost var watched: map<nat, Path>
    ghost var trace: seq<Mem>

    /** The whole state as a value. */
    ghost function Now(): State
      reads this
    {
      State(pageSize, mapped, mem, arena, cur, end, freeListMap, own, shapes, free, ext, home, chunks,
            watchedRoot, watched, trace)
    }

    constructor (pageSize: nat)
      requires 4096 <= pageSize && pageSize % 16 == 0
      ensures Now().Ok(NO_KEY) && this.pageSize == pageSize
      ensures mapped == map[] && chunks == {} && own == map[] && shapes == map[] && freeListMap == 0 && watched == map[]
    {
      this.pageSize := pageSize;
      mapped, mem := map[], map[];
      arena, cur, end, freeListMap := 0, 0, 0, 0;
      own, shapes, free, ext, home, chunks := map[], map[], map[], map[], map[], {};
      watchedRoot, watched, trace := 0, map[], [map[]];
    }

    ghost predicate Watching()
      reads this
    {
      MidWatch(mem, own, watchedRoot, watched, trace)
    }

    /** One store. Between any two stores another thread may load any word. */
    method Store(a: nat, i: nat, v: nat)
      requires a in mem && i < |mem[a]|
      requires Watching() && AllHold(Put(mem, a, i, v), watchedRoot, watched)
      modifies this`mem, this`trace
      ensures mem == Put(old(mem), a, i, v) && trace == old(trace) + [mem]
      ensures Watching()
    {
      hide WatchRoles, AllHold;
      TraceGrows(trace, mem, Put(mem, a, i, v), a, i);
      mem := Put(mem, a, i, v);
      trace := trace + [mem];
    }

    /** A store outside the watched trie, or to one of its NULL slots. */
    method StoreFresh(a: nat, i: nat, v: nat)
      requires a in mem && i < |mem[a]| && Watching()
      requires watched != map[] && NodeOf(own, watchedRoot, a) ==> mem[a][i] == 0
      modifies this`mem, this`trace
      ensures mem == Put(old(mem), a, i, v) && old(trace) <= trace && Watching()
    {
      if watched != map[] { StoreElsewhere(mem, own, watchedRoot, watched, a, i, v); }
      Store(a, i, v);
    }

    /** A store to a count on the path of a key that is not watched, or to its slot. */
    method StoreOnPath(a: nat, i: nat, v: nat, ghost root: nat, ghost key: nat)
      requires a in mem && i < |mem[a]| && Watching() && a in own && key < KEY_LIMIT
      requires root == watchedRoot ==> key !in watched
      requires (own[a] == Middle(root, Top(key)) && i == L2_SIZE) ||
        (own[a] == Leaf(root, Top(key), Mid(key)) && (i == L3_SIZE || i == Low(key)))
      modifies this`mem, this`trace
      ensures mem == Put(old(mem), a, i, v) && old(trace) <= trace && Watching()
    {
      StoreBeside(mem, own, watchedRoot, watched, a, i, v, root, key);
      Store(a, i, v);
    }

    /** memset(a, 0, size), word by word. */
    method Clear(a: nat)
      requires a in mem && Watching() && (watched != map[] ==> !NodeOf(own, watchedRoot, a))
      modifies this`mem, this`trace
      ensures mem == old(mem)[a := Zeros(|old(mem)[a]|)] && old(trace) <= trace && Watching()
    {
      ghost var words := mem[a];
      for i := 0 to |mem[a]|
        invariant a in mem && |mem[a]| == |words| && i <= |words|
        invariant mem == old(mem)[a := mem[a]] && old(trace) <= trace
        invariant forall j :: 0 <= j < i ==> mem[a][j] == 0
        invariant Watching()
      {
        StoreFresh(a, i, 0);
      }
      assert mem[a] == Zeros(|words|);
    }

    /** mmap: some free, page-aligned region below 2^47, or failure. */
    method Mmap(len: nat) returns (ok: bool, base: nat, ghost page: nat)
      requires len > 0 && RegionsOk(mapped) && 4096 <= pageSize && pageSize % 16 == 0
      modifies this`mapped
      ensures !ok ==> mapped == old(mapped)
      ensures ok ==> base > 0 && base == Times(page, pageSize) && base % 16 == 0 && base !in old(mapped)
      ensures ok ==> mapped == old(mapped)[base := len] && RegionsOk(mapped)
    {
      var index: nat := *;
      page := index;
      base := Times(index, pageSize);
      TimesMod16(index, pageSize);
      ok := base > 0 && base + len <= ADDRESS_LIMIT &&
        forall b :: b in mapped ==> base + len <= b || b + mapped[b] <= base;
      if ok {
        ghost var before := mapped;
        mapped := mapped[base := len];
        forall b, c | b in mapped && c in mapped && b != c ensures Apart(b, mapped[b], c, mapped[c]) {
          if b != base && c != base { assert Apart(b, before[b], c, before[c]); }
        }
      }
    }

    /** munmap */
    method Munmap(base: nat, len: nat)
      requires base in mapped && mapped[base] == len
      modifies this`mapped
      ensures mapped == old(mapped) - {base}
    {
      mapped := mapped - {base};
    }

    /** src/range_map.c:119-127 */
    function Get(root: nat, key: nat): (v: nat)
      requires root in shapes && TrieOk(mem, own, root, shapes[root])
      reads this
      ensures v == Now().Value(root, key)
    {
      assert Top(key) in shapes[root].l2 ==> MiddleOk(mem, own, root, shapes[root], Top(key));
      assert HasPath(shapes[root], key) ==> LeafOk(mem, own, root, shapes[root], (Top(key), Mid(key)));
      if mem[root][Top(key)] == 0 || mem[mem[root][Top(key)]][Mid(key)] == 0 then 0
      else mem[mem[mem[root][Top(key)]][Mid(key)]][Low(key)]
    }

    /** src/metadata.c:23-53. A cached object of that size is reused as it is; otherwise the object
        is new and zero. */
    method AllocMetadata(size: nat) returns (ok: bool, r: nat)
      requires Now().Ok(NO_KEY) && size % WORD == 0 && WORD <= size <= META_CHUNK_SIZE - META_HEADER
      modifies this
      decreases 1, 0
      ensures ok ==> Handed(old(Now()), Now(), size, r)
      ensures ok && old(FreeList(free, size)) == [] && old(arena) != 0 && size <= old(end - cur) ==>
        r == old(cur) && arena == old(arena) && mapped == old(mapped) && chunks == old(chunks)
      ensures ok && old(FreeList(free, size)) == [] && (old(arena) == 0 || size > old(end - cur)) ==>
        arena !in old(mapped) && mapped == old(mapped)[arena := 0x40_0000] && r == arena + 32
      ensures ok && old(FreeList(free, size)) != [] ==> ArenaSame(old(Now()), Now())
    {
      hide ArenaOk, RegionsOk, WatchOk, FreeOk, HeadsAgree, NodesBack, SizesOk, Handed;
      if freeListMap != 0 {
        HeadIsCached(Now(), size);
        var head := Get(freeListMap, size);
        if head != 0 {
          r := PopCached(size);
          HandedBumps(old(Now()), Now(), size, r);
          return true, r;
        }
      }
      ok, r := BumpAlloc(size);
      if ok { HandedBumps(old(Now()), Now(), size, r); }
    }

    /** src/metadata.c:25-30: the object after the head becomes the head. */
    method PopCached(size: nat) returns (r: nat)
      requires Now().Ok(NO_KEY) && freeListMap != 0 && FreeList(free, size) != [] && size < KEY_LIMIT
      modifies this
      decreases 0, 3
      ensures Handed(old(Now()), Now(), size, r)
    {
      hide ArenaOk, RegionsOk, WatchOk, FreeOk, HeadsAgree, NodesBack, SizesOk, Handed;
      ghost var s0 := Now();
      HeadIsCached(s0, size);
      r := Get(freeListMap, size);
      NoWatch(s0);
      var _ := Map(freeListMap, mem[r][0], size);
      ghost var s := Now();
      own := own[r := Record];
      free := free[size := Popped(free[size])];
      Unlinked(s0, s, size);
    }

    /** src/metadata.c:33-52 */
    method BumpAlloc(size: nat) returns (ok: bool, r: nat)
      requires Now().Ok(NO_KEY) && size % WORD == 0 && WORD <= size <= META_CHUNK_SIZE - META_HEADER
      requires FreeList(free, size) == []
      modifies this
      ensures ok ==> Handed(old(Now()), Now(), size, r)
    {
      hide ArenaOk, LayoutOk, RegionsOk, WatchOk, CoreOk, SizesOk, Handed, Steady, PackedOk;
      ghost var s0 := Now();
      ok := true;
      if arena == 0 || end - cur < size {
        ok := NewChunk();
        if !ok { return ok, 0; }
      }
      ghost var s := Now();
      ReadyToBump(s0, s, size);
      r := Advance(size);
      HandedAfter(s0, s, Now(), size, r);
    }

    /** src/metadata.c:50-52 */
    method Advance(size: nat) returns (r: nat)
      requires Now().Loose() && arena != 0 && size % WORD == 0 && 0 < size <= end - cur && FreeList(free, size) == []
      requires PackedOk(chunks, ext[cur := size], home[cur := arena], arena, AlignUp(cur + size))
      modifies this`mem, this`trace, this`cur, this`own, this`ext, this`home
      ensures Handed(old(Now()), Now(), size, r) && r == old(cur)
    {
      hide LayoutOk, PackedOk, RegionsOk, WatchOk, CoreOk, SizesOk, Handed, Steady;
      ghost var s := Now();
      ghost var words := mem[cur := Zeros(size / WORD)];
      r := cur;
      cur := AlignUp(cur + size);
      ext, home, own := ext[r := size], home[r := arena], own[r := Record];
      mem := mem[r := Zeros(size / WORD)];
      trace := trace + [words];
      Bumped(s, size, Now());
    }

    /** src/metadata.c:35-47: one more chunk to bump through. */
    method NewChunk() returns (ok: bool)
      requires Now().Ok(NO_KEY)
      modifies this`mapped, this`arena, this`cur, this`end, this`chunks
      ensures ok ==> ChunkOpened(old(Now()), Now())
    {
      hide ArenaOk, LayoutOk, WatchOk, CoreOk, SizesOk, Steady;
      ghost var s := Now();
      var base;
      ghost var page;
      ok, base, page := Mmap(META_CHUNK_SIZE);
      if ok {
        arena := base;
        cur := AlignUp(arena + 24);
        end := arena + META_CHUNK_SIZE;
        chunks := chunks + {base};
        ChunkAdded(s, base, Now());
      }
    }

    /** src/range_map.c:53-77 */
    method Map(root: nat, value: nat, key: nat) returns (ok: bool)
      requires Now().Ok(NO_KEY) && Now().Trie(root) && key < KEY_LIMIT
      requires root == watchedRoot ==> key !in watched
      requires root != freeListMap ==> value != 0
      modifies this
      decreases if HasPath(shapes[root], key) then 0 else 1, 2
      ensures ok ==> Mapped(old(Now()), Now(), root, key, value)
      ensures old(HasPath(shapes[root], key)) ==> ok && MappedInPlace(old(Now()), Now(), root)
    {
      hide ArenaOk, RegionsOk, WatchOk, CoreOk, SizesOk, TrieOk, Exact, NoneEmptyBut, Grew;
      ghost var s0 := Now();
      RootSlot(mem, own, root, shapes[root], key);
      FlmRole(s0);
      GrewNot(s0, root, key, {L2_BYTES});
      ok := true;
      if mem[root][Top(key)] == 0 {
        ok := AddMiddle(root, key);
        if !ok { return; }
        GrewFacts(s0, Now(), root, key, {L2_BYTES});
        RootSlot(mem, own, root, shapes[root], key);
      } else if HasPath(shapes[root], key) {
        TrieHasLeaf(s0, root, key);
      } else {
        TrieHasMiddle(s0, root, key);
      }
      ghost var s1 := Now();
      GrewNot(s1, root, key, {L3_BYTES});
      if mem[mem[root][Top(key)]][Mid(key)] == 0 {
        ok := AddLeaf(root, key);
        if !ok { return; }
        GrewFacts(s1, Now(), root, key, {L3_BYTES});
      }
      ghost var s2 := Now();
      GrewTwice(s0, s1, s2, root, key, {L2_BYTES}, {L3_BYTES});
      assert {L2_BYTES} + {L3_BYTES} == {L2_BYTES, L3_BYTES};
      FlmRole(s2);
      SetSlot(root, value, key);
      GrewTwice(s0, s2, Now(), root, key, {L2_BYTES, L3_BYTES}, {});
      assert {L2_BYTES, L3_BYTES} + {} == {L2_BYTES, L3_BYTES};
    }

    /** src/range_map.c:63-66 */
    method AddMiddle(root: nat, key: nat) returns (ok: bool)
      requires Now().Ok(NO_KEY) && Now().Trie(root) && key < KEY_LIMIT
      requires Top(key) !in shapes[root].l2 && !HasPath(shapes[root], key)
      modifies this
      decreases 1, 1
      ensures ok ==> HalfWay(Now(), root, key) && Grew(old(Now()), Now(), root, key, {L2_BYTES})
    {
      hide ArenaOk, RegionsOk, WatchOk, CoreOk, SizesOk, TrieOk, Exact, NoneEmptyBut, Grew, MidWatch;
      ghost var s := Now();
      var n;
      ok, n := AllocMetadata(L2_BYTES);
      if !ok { return; }
      ghost var s1 := Now();
      TrieAfterAlloc(s, s1, root, L2_BYTES, n);
      RootSlot(mem, own, root, shapes[root], key);
      LinkMiddle(root, key, n);
      MiddleAdded(s1, root, key, n, Now());
      NodeGrew(s, s1, root, key, n, L2_BYTES, Middle(root, Top(key)), Now());
      if root != freeListMap { MiddleCounts(s, s1, root, key, n, Now()); }
    }

    method LinkMiddle(root: nat, key: nat, n: nat)
      requires Now().Ok(NO_KEY) && root in shapes && TrieOk(mem, own, root, shapes[root])
      requires Top(key) !in shapes[root].l2 && n in own && own[n] == Record && n in ext && ext[n] == L2_BYTES
      requires root in mem && |mem[root]| == L1_SIZE
      modifies this`mem, this`trace, this`own, this`shapes
      ensures Now() == WithMiddle(old(Now()), root, key, n, trace) && old(trace) <= trace && n != root
      ensures MidWatch(mem, old(own), watchedRoot, watched, trace)
    {
      hide ArenaOk, RegionsOk, WatchOk, CoreOk, SizesOk, TrieOk, MidWatch;
      ghost var s1 := Now();
      NodeReady(s1, L2_BYTES, n);
      RootSlot(mem, own, root, shapes[root], key);
      WatchParts(s1);
      RecordIsNoNode(s1, n);
      StoreFresh(root, Top(key), n);
      Clear(n);
      own := own[n := Middle(root, Top(key))];
      shapes := shapes[root := shapes[root].(l2 := shapes[root].l2[Top(key) := n])];
    }

    /** src/range_map.c:67-71 */
    method AddLeaf(root: nat, key: nat) returns (ok: bool)
      requires HalfWay(Now(), root, key)
      requires root == watchedRoot ==> key !in watched
      modifies this
      decreases 1, 1
      ensures ok ==> LeafThere(Now(), root, key) && Grew(old(Now()), Now(), root, key, {L3_BYTES})
    {
      hide ArenaOk, RegionsOk, WatchOk, CoreOk, SizesOk, TrieOk, Exact, NoneEmptyBut, Grew, MidWatch, BumpedTo,
        LeafThere, WithLeaf;
      ghost var s := Now();
      var n;
      ok, n := AllocMetadata(L3_BYTES);
      if !ok { return; }
      ghost var s1 := Now();
      TrieAfterAlloc(s, s1, root, L3_BYTES, n);
      RootSlot(mem, own, root, shapes[root], key);
      ghost var c := (mem[mem[root][Top(key)]][L2_SIZE] + 1) % SIZE_LIMIT;
      LinkLeaf(root, key, n);
      LeafPlaced(s, s1, root, key, n, c, Now());
    }

    method LinkLeaf(root: nat, key: nat, n: nat)
      requires Now().Ok(NO_KEY) && root in shapes && TrieOk(mem, own, root, shapes[root]) && key < KEY_LIMIT
      requires Top(key) in shapes[root].l2 && MiddleOk(mem, own, root, shapes[root], Top(key)) &&
        !HasPath(shapes[root], key)
      requires n in own && own[n] == Record && n in ext && ext[n] == L3_BYTES
      requires root == watchedRoot ==> key !in watched
      modifies this`mem, this`trace, this`own, this`shapes
      ensures Now() == WithLeaf(old(Now()), root, key, n,
          (old(mem[shapes[root].l2[Top(key)]][L2_SIZE]) + 1) % SIZE_LIMIT, trace)
      ensures old(trace) <= trace && MidWatch(mem, old(own), watchedRoot, watched, trace)
    {
      hide ArenaOk, RegionsOk, WatchOk, CoreOk, SizesOk, TrieOk, MidWatch;
      ghost var s1 := Now();
      NodeReady(s1, L3_BYTES, n);
      RootSlot(mem, own, root, shapes[root], key);
      WatchParts(s1);
      RecordIsNoNode(s1, n);
      FillMiddle(root, mem[root][Top(key)], key, n);
      own := own[n := Leaf(root, Top(key), Mid(key))];
      shapes := shapes[root := shapes[root].(l3 := shapes[root].l3[(Top(key), Mid(key)) := n])];
    }

    /** The three stores of src/range_map.c:68-70. */
    method FillMiddle(root: nat, m: nat, key: nat, n: nat)
      requires m in mem && |mem[m]| == L2_SIZE + 1 && m in own && own[m] == Middle(root, Top(key)) && key < KEY_LIMIT
      requires n in mem && |mem[n]| == L3_SIZE + 1 && n != m && (watched != map[] ==> !NodeOf(own, watchedRoot, n))
      requires Watching() && mem[m][Mid(key)] == 0
      requires root == watchedRoot ==> key !in watched
      modifies this`mem, this`trace
      ensures mem == PutLeaf(old(mem), m, Mid(key), n, (old(mem[m][L2_SIZE]) + 1) % SIZE_LIMIT)
      ensures old(trace) <= trace && Watching()
    {
      hide MidWatch, NodeOf;
      StoreFresh(m, Mid(key), n);
      Clear(n);
      StoreOnPath(m, L2_SIZE, (mem[m][L2_SIZE] + 1) % SIZE_LIMIT, root, key);
    }

    /** src/range_map.c:72-74 */
    method SetSlot(root: nat, value: nat, key: nat)
      requires LeafThere(Now(), root, key)
      requires root == watchedRoot ==> key !in watched
      requires root != freeListMap ==> value != 0
      modifies this`mem, this`trace
      ensures Now().Ok(if root == freeListMap then key else NO_KEY) && Now().Trie(root) &&
        Now().Value(root, key) == value
      ensures Grew(old(Now()), Now(), root, key, {}) && MappedInPlace(old(Now()), Now(), root)
    {
      hide ArenaOk, RegionsOk, WatchOk, CoreOk, SizesOk, TrieOk, Exact, NoneEmptyBut, Grew, MidWatch;
      ghost var s := Now();
      RootSlot(mem, own, root, shapes[root], key);
      WatchParts(s);
      var a := mem[mem[root][Top(key)]][Mid(key)];
      ghost var c := FillSlot(root, a, key, value);
      SlotWritten(s, root, key, value, c, Now());
      if root != freeListMap {
        LeafCountBound(s, root, key);
        WriteSlotCounts(s.mem, s.own, root, s.shapes[root], key, value, c);
      }
    }

    /** The stores of src/range_map.c:72-74. */
    method FillSlot(root: nat, a: nat, key: nat, value: nat) returns (ghost c: nat)
      requires a in mem && |mem[a]| == L3_SIZE + 1 && a in own && own[a] == Leaf(root, Top(key), Mid(key)) &&
        key < KEY_LIMIT
      requires Watching()
      requires root == watchedRoot ==> key !in watched
      modifies this`mem, this`trace
      ensures c == if old(mem[a][Low(key)]) == 0 then (old(mem[a][L3_SIZE]) + 1) % SIZE_LIMIT else old(mem[a][L3_SIZE])
      ensures mem == PutSlot(old(mem), a, key, value, c)
      ensures old(trace) <= trace && Watching()
    {
      hide MidWatch;
      c := mem[a][L3_SIZE];
      if mem[a][Low(key)] == 0 {
        c := (mem[a][L3_SIZE] + 1) % SIZE_LIMIT;
        StoreOnPath(a, L3_SIZE, (mem[a][L3_SIZE] + 1) % SIZE_LIMIT, root, key);
      } else {
        PutSame(mem, a, L3_SIZE);
      }
      StoreOnPath(a, Low(key), value, root, key);
    }

    /** src/range_map.c:46-51 */
    method InitializeRangeMap() returns (ok: bool, r: nat)
      requires Now().Ok(NO_KEY)
      modifies this
      ensures ok ==> Now().Ok(NO_KEY) && Steady(old(Now()), Now()) && freeListMap == old(freeListMap)
      ensures ok ==> r !in old(shapes) && shapes == old(shapes)[r := EMPTY] && r != freeListMap && Now().Trie(r)
      ensures ok ==> forall k: nat :: Now().Value(r, k) == 0
      ensures ok && watched != map[] ==> r != watchedRoot
      ensures ok ==> r !in old(own) && own == old(own)[r := TrieRoot] && mem == old(mem)[r := Zeros(L1_SIZE)]
      ensures ok ==> forall n :: FreeList(free, n) == old(FreeList(free, n))
    {
      hide BumpedTo, ArenaOk, RegionsOk, WatchOk, CoreOk, SizesOk, TrieOk, Counted;
      ghost var s := Now();
      ok, r := AllocMetadata(L1_BYTES);
      if !ok { return; }
      ghost var s1 := Now();
      RootAdded(s, s1, r);
      FreshRoot(s, s1, r);
      own := own[r := TrieRoot];
      shapes := shapes[r := EMPTY];
      assert Now() == WithRoot(s1, r);
      forall n ensures FreeList(free, n) == FreeList(s.free, n) { assert s1.List(n) == FreeList(free, n); }
    }

    /** src/metadata.c:55-63 */
    method FreeMetadata(ptr: nat, size: nat) returns (ok: bool)
      requires Now().Ok(NO_KEY) && ptr in own && own[ptr] == Record && ptr in ext && ext[ptr] == size
      requires 0 < size < KEY_LIMIT && size != L1_BYTES
      modifies this
      ensures ok ==> Freed(old(Now()), Now(), ptr, size)
    {
      hide ArenaOk, RegionsOk, WatchOk, FreeOk, TrieOk, HeadsAgree, SizesOk, NodesBack, Counted, Freed;
      ghost var s := Now();
      NodeReady(s, size, ptr);
      ok := true;
      if freeListMap == 0 {
        var r;
        ok, r := InitializeRangeMap();
        if !ok { return; }
        TrieRootOk(Now(), r);
        FlmCreated(Now(), r);
        freeListMap := r;
      }
      ghost var s1 := Now();
      NodeReady(s1, size, ptr);
      ok := Push(ptr, size);
      if ok && s.flm == 0 { FreedAfterCreate(s, s1, Now(), ptr, size) by { CoreParts(s); } }
    }

    /** src/metadata.c:59-62: link the object to the head it finds, and make it the head. */
    method Push(ptr: nat, size: nat) returns (ok: bool)
      requires Now().Ok(NO_KEY) && freeListMap != 0 && ptr in own && own[ptr] == Record
      requires ptr in mem && WORD * |mem[ptr]| == size && 0 < size < KEY_LIMIT && size != L1_BYTES
      modifies this
      ensures ok ==> Freed(old(Now()), Now(), ptr, size)
    {
      hide ArenaOk, RegionsOk, WatchOk, FreeOk, TrieOk, HeadsAgree, SizesOk, NodesBack, Counted, MidWatch, Freed,
        Mapped, MappedInPlace, WithCached;
      ghost var s := Now();
      NoWatch(s);
      WatchParts(s);
      HeadIsCached(s, size);
      var head := Get(freeListMap, size);
      RecordIsNoNode(s, ptr);
      StoreFresh(ptr, 0, head);
      ghost var s2 := Now();
      RecordStored(s, ptr, s2);
      NoWatch(s2);
      ok := Map(freeListMap, ptr, size);
      if !ok { return; }
      ghost var s3 := Now();
      Pushed(s, s2, s3, ptr, size);
      Listed(ptr, size);
    }

    /** The books once ptr is the head of its list. */
    ghost method Listed(ptr: nat, size: nat)
      modifies this`own, this`free
      ensures Now() == WithCached(old(Now()), ptr, size)
    {
      own := own[ptr := Cached(size, |FreeList(free, size)|)];
      free := free[size := FreeList(free, size) + [ptr]];
    }

    /** src/range_map.c:79-105. The three asserts of the source are the three asserts here. */
    method Unmap(root: nat, key: nat) returns (ok: bool)
      requires Now().Ok(NO_KEY) && Now().Trie(root) && root != freeListMap && key < KEY_LIMIT
      requires Now().Value(root, key) != 0
      requires root == watchedRoot ==> key !in watched
      modifies this
      ensures ok ==> Unmapped(old(Now()), Now(), root, key)
    {
      hide ArenaOk, RegionsOk, WatchOk, CoreOk, SizesOk, TrieOk, Exact, NoneEmptyBut, MidWatch, Shrunk, Grew, OtherKeys;
      ghost var s := Now();
      RootSlot(mem, own, root, shapes[root], key);
      assert mem[root][Top(key)] != 0;
      assert mem[mem[root][Top(key)]][Mid(key)] != 0;
      assert mem[mem[mem[root][Top(key)]][Mid(key)]][Low(key)] != 0;
      ok := true;
      ClearSlot(root, key);
      ghost var s1 := Now();
      RootSlot(mem, own, root, shapes[root], key);
      ShrunkNot(s1, root);
      if mem[mem[mem[root][Top(key)]][Mid(key)]][L3_SIZE] == 0 {
        ok := UnlinkLeaf(root, key);
        if !ok { return; }
      } else {
        LeafStays(s1, root, key);
      }
      ghost var s2 := Now();
      RootSlot(mem, own, root, shapes[root], key);
      ShrunkNot(s2, root);
      if mem[mem[root][Top(key)]][L2_SIZE] == 0 {
        ok := UnlinkMiddle(root, key);
        if !ok { return; }
      } else {
        MiddleStays(s2, root, key);
      }
      ShrunkTwice(s1, s2, Now(), root);
      UnmappedAfter(s, s1, Now(), root, key);
    }

    /** src/range_map.c:92-93 */
    method ClearSlot(root: nat, key: nat)
      requires Now().Ok(NO_KEY) && Now().Trie(root) && root != freeListMap && key < KEY_LIMIT
      requires Now().Value(root, key) != 0
      requires root == watchedRoot ==> key !in watched
      modifies this`mem, this`trace
      ensures LeafThere(Now(), root, key) && Grew(old(Now()), Now(), root, key, {}) && Now().Value(root, key) == 0
    {
      hide ArenaOk, RegionsOk, WatchOk, CoreOk, SizesOk, TrieOk, Exact, NoneEmptyBut, MidWatch, Grew;
      ghost var s := Now();
      RootSlot(mem, own, root, shapes[root], key);
      WatchParts(s);
      TrieHasLeaf(s, root, key);
      LeafCountBound(s, root, key);
      var a := mem[mem[root][Top(key)]][Mid(key)];
      ghost var c := (mem[a][L3_SIZE] + SIZE_LIMIT - 1) % SIZE_LIMIT;
      StoreOnPath(a, Low(key), 0, root, key);
      StoreOnPath(a, L3_SIZE, (mem[a][L3_SIZE] + SIZE_LIMIT - 1) % SIZE_LIMIT, root, key);
      PutOrder(s.mem, a, L3_SIZE, c, Low(key), 0);
      SlotWritten(s, root, key, 0, c, Now());
      WriteSlotCounts(s.mem, s.own, root, s.shapes[root], key, 0, c);
    }

    /** src/range_map.c:95-97 */
    method UnlinkLeaf(root: nat, key: nat) returns (ok: bool)
      requires EmptyLeaf(Now(), root, key)
      requires root == watchedRoot ==> key !in watched
      modifies this
      ensures ok ==> MiddleNext(Now(), root, key) && Shrunk(old(Now()), Now(), root)
      ensures ok ==> FreeList(free, L3_BYTES) == old(FreeList(free, L3_BYTES) + [shapes[root].l3[(Top(key), Mid(key))]])
    {
      hide ArenaOk, RegionsOk, WatchOk, CoreOk, SizesOk, TrieOk, Exact, NoneEmptyBut, MidWatch, Freed;
      ghost var s := Now();
      RootSlot(mem, own, root, shapes[root], key);
      LeafDetachedOk(s, root, key);
      var m := mem[root][Top(key)];
      var a := mem[m][Mid(key)];
      LeafExtent(s, root, key);
      own := own[a := Record];
      shapes := shapes[root := shapes[root].(l3 := shapes[root].l3 - {(Top(key), Mid(key))})];
      assert Now() == LeafDetached(s, root, key);
      ok := FreeMetadata(a, L3_BYTES);
      if ok { FinishLeaf(s, root, key, m, a); }
    }

    /** The leaf is on its free list: clear the way to it. */
    method FinishLeaf(ghost s: State, root: nat, key: nat, m: nat, ghost a: nat)
      requires EmptyLeaf(s, root, key) && a == s.shapes[root].l3[(Top(key), Mid(key))]
      requires Top(key) in s.shapes[root].l2 && m == s.shapes[root].l2[Top(key)] &&
        MiddleOk(s.mem, s.own, root, s.shapes[root], Top(key))
      requires LeafDetached(s, root, key).Ok(NO_KEY) && Freed(LeafDetached(s, root, key), Now(), a, L3_BYTES)
      requires root == s.watchedRoot ==> key !in s.watched
      modifies this`mem, this`trace
      ensures MiddleNext(Now(), root, key) && Shrunk(s, Now(), root) &&
        FreeList(free, L3_BYTES) == s.List(L3_BYTES) + [a]
    {
      hide ArenaOk, RegionsOk, WatchOk, CoreOk, SizesOk, TrieOk, Exact, NoneEmptyBut, MidWatch, Freed;
      ghost var s3 := Now();
      RootRole(s.mem, s.own, root, s.shapes[root]);
      RootNotLeaf(s, root, key);
      FreedFrame(LeafDetached(s, root, key), s3, root, a, L3_BYTES);
      DetachedMiddle(s, root, key, s3, m);
      WatchParts(s3);
      UnhookLeaf(root, m, key, a);
      LeafDropped(s, s3, root, key, m, (s.mem[m][L2_SIZE] + SIZE_LIMIT - 1) % SIZE_LIMIT, Now());
    }

    /** src/range_map.c:96-97 */
    method UnhookLeaf(ghost root: nat, m: nat, key: nat, ghost a: nat)
      requires m in mem && |mem[m]| == L2_SIZE + 1 && m in own && own[m] == Middle(root, Top(key)) && key < KEY_LIMIT
      requires mem[m][Mid(key)] == a && a in own && own[a].Cached? && Watching()
      requires root == watchedRoot ==> key !in watched
      modifies this`mem, this`trace
      ensures mem == PutMiddle(old(mem), m, Mid(key), 0, (old(mem[m][L2_SIZE]) + SIZE_LIMIT - 1) % SIZE_LIMIT)
      ensures old(trace) <= trace && Watching()
    {
      hide MidWatch;
      ClearedSlotSafe(Now(), m, Mid(key), a);
      Store(m, Mid(key), 0);
      StoreOnPath(m, L2_SIZE, (mem[m][L2_SIZE] + SIZE_LIMIT - 1) % SIZE_LIMIT, root, key);
    }

    /** The books once a middle node no longer belongs to its trie. */
    ghost method DetachMiddle(root: nat, i: nat)
      requires root in shapes && i in shapes[root].l2
      modifies this`own, this`shapes
      ensures Now() == MiddleDetached(old(Now()), root, i)
    {
      own := own[shapes[root].l2[i] := Record];
      shapes := shapes[root := shapes[root].(l2 := shapes[root].l2 - {i})];
    }

    /** src/range_map.c:100-101 */
    method UnlinkMiddle(root: nat, key: nat) returns (ok: bool)
      requires EmptyMiddle(Now(), root, key)
      modifies this
      ensures ok ==> Now().Ok(NO_KEY) && Now().Trie(root) && Shrunk(old(Now()), Now(), root)
      ensures ok ==> FreeList(free, L2_BYTES) == old(FreeList(free, L2_BYTES) + [shapes[root].l2[Top(key)]])
    {
      hide ArenaOk, RegionsOk, WatchOk, CoreOk, SizesOk, TrieOk, Exact, NoneEmptyBut, MidWatch, Freed, Shrunk;
      ghost var s := Now();
      RootSlot(mem, own, root, shapes[root], key);
      MiddleDetachedOk(s, root, key);
      var m := mem[root][Top(key)];
      MiddleExtent(s, root, key);
      DetachMiddle(root, Top(key));
      ok := FreeMetadata(m, L2_BYTES);
      if !ok { return; }
      ghost var s3 := Now();
      NotDetached(s, root, m);
      FreedFrame(MiddleDetached(s, root, Top(key)), s3, root, m, L2_BYTES);
      DetachedRoot(s, root, key, s3);
      WatchParts(s3);
      ClearedSlotSafe(s3, root, Top(key), m);
      Store(root, Top(key), 0);
      MiddleDropped(s, s3, root, key, Now());
    }

    /** src/range_map.c:107-111 */
    method MapRange(root: nat, data: nat, from: nat, to: nat) returns (ok: bool)
      requires ClientOk(Now(), root) && data != 0 && from <= to <= KEY_LIMIT
      requires root == watchedRoot ==> forall k :: from <= k < to ==> k !in watched
      modifies this
      ensures ok ==> RangeStep(old(Now()), Now(), root, from, to, data)
    {
      hide ArenaOk, RegionsOk, WatchOk, CoreOk, SizesOk, TrieOk, Counted, RangeSet, RecordsKept, Mapped;
      RangeNone(Now(), root, from, data);
      ok := true;
      for i := from to to
        invariant RangeStep(old(Now()), Now(), root, from, i, data)
      {
        ghost var s1 := Now();
        ok := Map(root, data, i);
        if !ok { return; }
        MappedRange(old(Now()), s1, Now(), root, from, i, data);
      }
    }

    /** src/range_map.c:113-117. Nodes are freed inside the loop, yet no assert of cmalloc_unmap trips. */
    method UnmapRange(root: nat, from: nat, to: nat) returns (ok: bool)
      requires ClientOk(Now(), root) && from <= to <= KEY_LIMIT
      requires forall k: nat :: from <= k < to ==> Now().Value(root, k) != 0
      requires root == watchedRoot ==> forall k :: from <= k < to ==> k !in watched
      modifies this
      ensures ok ==> RangeStep(old(Now()), Now(), root, from, to, 0) && Returned(old(Now()), Now(), root)
    {
      hide ArenaOk, RegionsOk, WatchOk, CoreOk, SizesOk, TrieOk, Counted, RecordsKept, OtherKeys;
      RangeNone(Now(), root, from, 0);
      ok := true;
      for i := from to to
        invariant RangeStep(old(Now()), Now(), root, from, i, 0) && Returned(old(Now()), Now(), root)
      {
        ghost var s1 := Now();
        assert s1.Value(root, i) == old(Now()).Value(root, i);
        ok := Unmap(root, i);
        if !ok { return; }
        RangeMore(old(Now()), s1, Now(), root, from, i, 0);
        OwnGrows(old(Now()), old(Now()), s1);
        ReturnedTwice(old(Now()), s1, Now(), root);
      }
    }

    /** Start watching mapped keys of a client's trie: a thread owns blocks on those pages. */
    ghost method Watch(root: nat, keys: set<nat>)
      requires ClientOk(Now(), root) && forall k :: k in keys ==> 0 <= k < KEY_LIMIT && Now().Value(root, k) != 0
      modifies this`watchedRoot, this`watched, this`trace
      ensures ClientOk(Now(), root) && Now() == WatchFrom(old(Now()), root, keys)
    {
      hide PathOf, TrieOk, Counted, CoreOk, ArenaOk, RegionsOk, WatchOk, SizesOk;
      WatchStarted(Now(), root, keys);
      ghost var s := WatchFrom(Now(), root, keys);
      watchedRoot, watched, trace := s.watchedRoot, s.watched, s.trace;
    }
  }
}
