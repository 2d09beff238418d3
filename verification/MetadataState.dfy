/** The state of the metadata arena as a value, and what its steps do to it. */
module MetadataState {
  import opened Linear
  import opened RangeMapSpec

  datatype State = State(
    pageSize: nat, mapped: map<nat, nat>, mem: Mem, arena: nat, cur: nat, end: nat, flm: nat,
    own: map<nat, Role>, shapes: map<nat, Shape>, free: map<nat, seq<nat>>,
    ext: map<nat, nat>, home: map<nat, nat>, chunks: set<nat>,
    watchedRoot: nat, watched: map<nat, Path>, trace: seq<Mem>)
  {
    /** Everything but the tries of clients; the head of list `except` may be out of date. */
    ghost predicate Ok(except: nat) {
      4096 <= pageSize && pageSize % 16 == 0 && RegionsOk(mapped) && Arena() && Core(except) && Watch()
    }

    /** The same while a new chunk has no object yet. */
    ghost predicate Loose() {
      4096 <= pageSize && pageSize % 16 == 0 && RegionsOk(mapped) &&
      LayoutOk(mapped, chunks, ext, home, arena, cur, end) &&
      SizesOk(mem, ext) && Core(NO_KEY) && Watch()
    }

    ghost predicate Arena() {
      ArenaOk(mapped, chunks, ext, home, arena, cur, end) && SizesOk(mem, ext)
    }

    ghost predicate Core(except: nat) {
      CoreOk(mem, own, shapes, free, flm, except)
    }

    ghost predicate Watch() {
      WatchOk(mem, own, flm, watchedRoot, watched, trace)
    }

    /** root is a trie of this arena; a client's tries count their non-NULL slots exactly. */
    ghost predicate Trie(root: nat) {
      root in shapes && TrieOk(mem, own, root, shapes[root]) &&
      (root != flm ==> Counted(mem, shapes[root]))
    }

    ghost function Value(root: nat, key: nat): nat
      requires root in shapes
    {
      RangeMapSpec.Value(mem, shapes[root], key)
    }

    ghost function List(size: nat): seq<nat> {
      FreeList(free, size)
    }
  }

  /** What every operation keeps: watched paths stay watched, and memory is only ever added. */
  ghost predicate Steady(s: State, s': State) {
    s'.pageSize == s.pageSize &&
    s'.watched == s.watched && s'.watchedRoot == s.watchedRoot && s.trace <= s'.trace &&
    Extends(s.ext, s'.ext) && Extends(s.mapped, s'.mapped) &&
    s'.chunks == s.chunks + (s'.mapped.Keys - s.mapped.Keys)
  }

  /** Objects outside the free lists and the free-list map are as they were. */
  ghost predicate Untouched(s: State, s': State) {
    forall a {:trigger s.mem[a]} {:trigger s'.mem[a]} :: a in s.mem && !Private(s.own, s.flm, a) ==>
      a in s'.mem && s'.mem[a] == s.mem[a]
  }

  /** Objects outside the free lists, the free-list map and the trie `root` are as they were. */
  ghost predicate Others(s: State, s': State, root: nat) {
    forall a {:trigger s.mem[a]} {:trigger s'.mem[a]} ::
      a in s.mem && !Private(s.own, s.flm, a) && !NodeOf(s.own, root, a) ==>
      a in s'.mem && s'.mem[a] == s.mem[a]
  }

  /** Memory comes from the bump pointer only if the size's list is empty, and from the kernel only if the
      current chunk has no room. */
  ghost predicate BumpedTo(s: State, s': State, size: nat, r: nat) {
    if s.List(size) != [] then ArenaSame(s, s')
    else
      r + size <= s'.cur < r + size + 16 && s'.ext == s.ext[r := size] && s'.home == s.home[r := s'.arena] &&
      if s.arena != 0 && size <= s.end - s.cur then
        r == s.cur && s'.arena == s.arena && s'.end == s.end && s'.mapped == s.mapped && s'.chunks == s.chunks
      else
        s'.arena !in s.mapped && s'.mapped == s.mapped[s'.arena := 0x40_0000] && s'.chunks == s.chunks + {s'.arena} &&
        s'.end == s'.arena + 0x40_0000 && r == s'.arena + 32
  }

  /** No memory is taken from the arena. */
  ghost predicate ArenaSame(s: State, s': State) {
    s'.mapped == s.mapped && s'.chunks == s.chunks && s'.arena == s.arena && s'.cur == s.cur && s'.end == s.end &&
    s'.ext == s.ext && s'.home == s.home
  }

  /** An object of that size has been handed out as r. */
  ghost predicate Handed(s: State, s': State, size: nat, r: nat) {
    s'.Ok(NO_KEY) && Steady(s, s') && s'.flm == s.flm && s'.shapes == s.shapes &&
    s'.own == s.own[r := Record] && r in s'.ext && s'.ext[r] == size && Untouched(s, s') && BumpedTo(s, s', size, r) &&
    (forall n :: s'.List(n) == if n == size then Popped(s.List(n)) else s.List(n)) &&
    if s.List(size) != [] then r == Head(s.free, size) && r in s.own && s.own[r].Cached? && s'.mem.Keys == s.mem.Keys &&
      s'.mem[r] == s.mem[r]
    else r !in s.mem && s'.mem == s.mem[r := Zeros(size / WORD)]
  }

  lemma {:induction false} HandedBumps(s: State, s': State, size: nat, r: nat)
    requires Handed(s, s', size, r)
    ensures BumpedTo(s, s', size, r)
  {}

  /** Without a cached object of that size, the list is empty; otherwise its head is that object. */
  lemma {:induction false} HeadIsCached(s: State, size: nat)
    requires s.Ok(NO_KEY) && size < KEY_LIMIT
    requires s.flm != 0
    ensures s.flm in s.shapes && (s.Value(s.flm, size) == 0 <==> s.List(size) == [])
    ensures s.List(size) != [] ==> s.Value(s.flm, size) == Head(s.free, size) && size > 0 && size in s.free
    ensures s.List(size) != [] ==> CachedOk(s.mem, s.own, s.free, size, |s.List(size)| - 1)
  {
    assert s.List(size) == [] || CachedOk(s.mem, s.own, s.free, size, |s.List(size)| - 1);
  }

  /** Another chunk has become the current one, from which nothing has been handed out yet. */
  ghost predicate ChunkOpened(s: State, s': State) {
    s'.arena !in s.mapped && s'.arena > 0 && s'.Loose() && Steady(s, s') &&
    s' == s.(mapped := s.mapped[s'.arena := META_CHUNK_SIZE], chunks := s.chunks + {s'.arena}, arena := s'.arena,
             cur := s'.arena + META_HEADER, end := s'.arena + META_CHUNK_SIZE)
  }

  lemma {:induction false} ChunkAdded(s: State, base: nat, s': State)
    requires s.Ok(NO_KEY) && base !in s.mapped && base % 16 == 0 && base > 0
    requires s' == s.(mapped := s.mapped[base := META_CHUNK_SIZE], chunks := s.chunks + {base},
                      arena := base, cur := AlignUp(base + 24), end := base + META_CHUNK_SIZE)
    requires RegionsOk(s'.mapped)
    ensures ChunkOpened(s, s')
  {
    hide CoreOk, WatchOk, PackedOk;
    forall a | a in s.ext ensures InChunk(s.ext, s.home, s'.chunks, base, s'.cur, a) {
      assert InChunk(s.ext, s.home, s.chunks, s.arena, s.cur, a);
    }
    forall a, b | a in s.ext && b in s.ext && a != b ensures Apart(a, s.ext[a], b, s.ext[b]) {}
  }

  ghost function AfterBump(s: State, size: nat): State {
    var m := s.mem[s.cur := Zeros(size / WORD)];
    s.(cur := AlignUp(s.cur + size), ext := s.ext[s.cur := size], home := s.home[s.cur := s.arena],
       own := s.own[s.cur := Record], mem := m, trace := s.trace + [m])
  }

  /** The bump pointer moves past a new object. */
  lemma {:induction false} Bumped(s: State, size: nat, s': State)
    requires s.Loose() && s.arena != 0 && size % WORD == 0 && 0 < size <= s.end - s.cur && s.List(size) == []
    requires s' == AfterBump(s, size) && PackedOk(s'.chunks, s'.ext, s'.home, s'.arena, s'.cur)
    ensures Handed(s, s', size, s.cur)
  {
    hide CoreOk, WatchOk, LayoutOk, PackedOk, RegionsOk, NodeOf;
    Bump(s.mapped, s.chunks, s.ext, s.home, s.arena, s.cur, s.end, size, s'.cur);
    CurNonZero(s);
    CoreExtend(s.mem, s.own, s.shapes, s.free, s.flm, s.cur, Zeros(size / WORD));
    WatchExtend(s.mem, s.own, s.cur, size / WORD, s.flm, s.watchedRoot, s.watched, s.trace);
  }

  lemma {:induction false} CurNonZero(s: State)
    requires s.Loose() && s.arena != 0
    ensures s.cur > 0 && s.mem.Keys == s.own.Keys
  {}

  /** With the key's path in place, cmalloc_map allocates nothing and writes to the trie only. */
  ghost predicate MappedInPlace(s: State, s': State, root: nat) {
    s'.shapes == s.shapes && s'.own == s.own && s'.free == s.free && ArenaSame(s, s') && s'.mem.Keys == s.mem.Keys &&
    forall a :: a in s.mem && !NodeOf(s.own, root, a) ==> s'.mem[a] == s.mem[a]
  }

  ghost function WithPopped(s: State, size: nat): State
    requires size in s.free
  {
    s.(own := s.own[Head(s.free, size) := Record], free := s.free[size := Popped(s.List(size))])
  }

  /** Taking the head off its list once the map holds its successor. */
  lemma {:induction false} Unlinked(s0: State, s: State, size: nat)
    requires s0.Ok(NO_KEY) && s0.flm != 0 && s0.List(size) != [] && size in s0.free
    requires CachedOk(s0.mem, s0.own, s0.free, size, |s0.List(size)| - 1)
    requires s.Ok(size) && Steady(s0, s) && s.flm == s0.flm && MappedInPlace(s0, s, s0.flm)
    requires s.flm in s.shapes && s.Value(s.flm, size) == Slot(s0.mem, Head(s0.free, size), 0)
    ensures Handed(s0, WithPopped(s, size), size, Head(s.free, size))
  {
    hide ArenaOk, RegionsOk, WatchOk, CoreOk, NodeOf;
    var head := Head(s.free, size);
    var s' := WithPopped(s, size);
    NotFlmNode(s0, head);
    assert s.Value(s.flm, size) == Head(s'.free, size);
    CorePop(s.mem, s.own, s.shapes, s.free, s.flm, size);
    WatchPopped(s, head);
    forall a | a in s0.mem && !Private(s0.own, s0.flm, a) ensures a in s'.mem && s'.mem[a] == s0.mem[a] {}
  }

  lemma {:induction false} NotFlmNode(s: State, a: nat)
    requires s.Core(NO_KEY) && a in s.own && s.own[a].Cached? && s.flm != 0
    ensures !NodeOf(s.own, s.flm, a)
  {}

  lemma {:induction false} WatchPopped(s: State, a: nat)
    requires s.Watch() && a in s.own && s.own[a].Cached?
    ensures WatchOk(s.mem, s.own[a := Record], s.flm, s.watchedRoot, s.watched, s.trace)
  {
    WatchFrame(s.mem, s.own, a, Record, s.flm, s.watchedRoot, s.watched, s.trace);
  }

  // ---- cmalloc_map ----

  /** The role is one that mapping this key may create: one middle node and one leaf at most. */
  ghost predicate NodeFor(role: Role, root: nat, key: nat) {
    role == Middle(root, Top(key)) || role == Leaf(root, Top(key), Mid(key))
  }

  /** Objects keep their roles, except that a cached object may have become a node for the key. */
  ghost predicate OwnGrew(own: map<nat, Role>, own': map<nat, Role>, root: nat, key: nat) {
    (forall a {:trigger a in own} {:trigger own'[a]} :: a in own ==>
      a in own' && (own'[a] == own[a] || (own[a].Cached? && NodeFor(own'[a], root, key)))) &&
    (forall a {:trigger own'[a]} :: a in own' && a !in own ==> NodeFor(own'[a], root, key))
  }

  /** Only lists of the given sizes may have been popped, and those once. */
  ghost predicate ListsPopped(s: State, s': State, sizes: set<nat>) {
    forall n {:trigger s'.List(n)} {:trigger s.List(n)} ::
      s'.List(n) == s.List(n) || (n in sizes && s'.List(n) == Popped(s.List(n)))
  }

  /** Keys other than the given one keep their values. */
  ghost predicate OtherKeys(s: State, s': State, root: nat, key: nat) {
    root in s.shapes && root in s'.shapes &&
    forall k: nat {:trigger s'.Value(root, k)} :: k < KEY_LIMIT && k != key ==> s'.Value(root, k) == s.Value(root, k)
  }

  /** Progress of cmalloc_map: the trie may have gained nodes for the key, each new or taken from one
      of the lists of the given sizes; if it is the free-list map, the key's own list is not popped. */
  ghost predicate Grew(s: State, s': State, root: nat, key: nat, sizes: set<nat>) {
    Steady(s, s') && s'.flm == s.flm && Others(s, s', root) &&
    root in s.shapes && root in s'.shapes && s'.shapes == s.shapes[root := s'.shapes[root]] &&
    OwnGrew(s.own, s'.own, root, key) && ListsPopped(s, s', sizes) &&
    if root == s.flm then s'.List(key) == s.List(key) else OtherKeys(s, s', root, key)
  }

  lemma {:induction false} GrewTwice(s: State, s1: State, s2: State, root: nat, key: nat, sizes1: set<nat>,
          sizes2: set<nat>)
    requires s.mem.Keys == s.own.Keys && sizes1 !! sizes2
    requires Grew(s, s1, root, key, sizes1) && Grew(s1, s2, root, key, sizes2)
    ensures Grew(s, s2, root, key, sizes1 + sizes2)
  {
    hide Others, OwnGrew, ListsPopped, OtherKeys;
    OthersTwice(s, s1, s2, root, key);
    OwnTwice(s.own, s1.own, s2.own, root, key);
    PoppedTwice(s, s1, s2, sizes1, sizes2);
    if root != s.flm { KeysTwice(s, s1, s2, root, key); }
  }

  lemma {:induction false} OthersTwice(s: State, s1: State, s2: State, root: nat, key: nat)
    requires s.mem.Keys == s.own.Keys && s1.flm == s.flm
    requires OwnGrew(s.own, s1.own, root, key) && Others(s, s1, root) && Others(s1, s2, root)
    ensures Others(s, s2, root)
  {
    forall a | a in s.mem && !Private(s.own, s.flm, a) && !NodeOf(s.own, root, a)
      ensures a in s2.mem && s2.mem[a] == s.mem[a]
    {
      assert s1.own[a] == s.own[a];
      assert s1.mem[a] == s.mem[a];
    }
  }

  lemma {:induction false} OwnTwice(own: map<nat, Role>, own1: map<nat, Role>, own2: map<nat, Role>, root: nat,
          key: nat)
    requires OwnGrew(own, own1, root, key) && OwnGrew(own1, own2, root, key)
    ensures OwnGrew(own, own2, root, key)
  {
    forall a | a in own ensures a in own2 && (own2[a] == own[a] || (own[a].Cached? && NodeFor(own2[a], root, key))) {
      assert a in own1;
    }
    forall a | a in own2 && a !in own ensures NodeFor(own2[a], root, key) {
      assert a in own1 ==> NodeFor(own1[a], root, key);
    }
  }

  lemma {:induction false} PoppedTwice(s: State, s1: State, s2: State, sizes1: set<nat>, sizes2: set<nat>)
    requires sizes1 !! sizes2 && ListsPopped(s, s1, sizes1) && ListsPopped(s1, s2, sizes2)
    ensures ListsPopped(s, s2, sizes1 + sizes2)
  {
    forall n ensures s2.List(n) == s.List(n) || (n in sizes1 + sizes2 && s2.List(n) == Popped(s.List(n))) {
      assert s1.List(n) == s.List(n) || (n in sizes1 && s1.List(n) == Popped(s.List(n)));
    }
  }

  lemma {:induction false} KeysTwice(s: State, s1: State, s2: State, root: nat, key: nat)
    requires OtherKeys(s, s1, root, key) && OtherKeys(s1, s2, root, key)
    ensures OtherKeys(s, s2, root, key)
  {
    forall k: nat | k < KEY_LIMIT && k != key ensures s2.Value(root, k) == s.Value(root, k) {
      assert s1.Value(root, k) == s.Value(root, k);
    }
  }

  /** The nodes of a client's trie are not private to the arena. */
  lemma {:induction false} ClientNodes(own: map<nat, Role>, flm: nat, root: nat)
    requires root in own && own[root] == TrieRoot && root != flm && (flm != 0 ==> flm in own && own[flm] == TrieRoot)
    ensures forall a :: a in own && NodeOf(own, root, a) ==> !Private(own, flm, a)
  {}

  /** Handing out an object does not change any trie but, in its values, the free-list map. */
  lemma {:induction false} TrieAfterAlloc(s: State, s1: State, root: nat, size: nat, n: nat)
    requires s.Ok(NO_KEY) && Handed(s, s1, size, n) && root in s.shapes && TrieOk(s.mem, s.own, root, s.shapes[root])
    ensures root in s1.shapes && TrieOk(s1.mem, s1.own, root, s1.shapes[root])
    ensures root != s.flm ==> SameNodes(s.mem, s.own, s1.mem, s1.own, root)
    ensures root != s.flm ==> forall k: nat :: s1.Value(root, k) == s.Value(root, k)
  {
    hide ArenaOk, RegionsOk, WatchOk, FreeOk, HeadsAgree, NodesBack, NodeOf, Private, SizesOk, Steady;
    if root != s.flm {
      FlmRole(s);
      RootRole(s.mem, s.own, root, s.shapes[root]);
      ClientNodes(s.own, s.flm, root);
      NotCachedNode(s, root, n);
      TrieFrame(s.mem, s.own, s1.mem, s1.own, root, s.shapes[root]);
    }
  }

  lemma {:induction false} FlmRole(s: State)
    requires s.Core(NO_KEY)
    ensures s.flm != 0 ==> s.flm in s.own && s.own[s.flm] == TrieRoot
    ensures s.mem.Keys == s.own.Keys && 0 !in s.mem
  {}

  lemma {:induction false} RootRole(mem: Mem, own: map<nat, Role>, root: nat, sh: Shape)
    requires TrieOk(mem, own, root, sh)
    ensures root in own && own[root] == TrieRoot && root in mem
  {}

  lemma {:induction false} NotCachedNode(s: State, root: nat, a: nat)
    requires root in s.own && s.own[root] == TrieRoot
    ensures a in s.own && s.own[a].Cached? ==> !NodeOf(s.own, root, a)
  {}

  /** Re-using a record as a trie node does not concern the watched trie's nodes. */
  lemma {:induction false} WatchRelabelled(s: State, n: nat, role: Role, mem': Mem, trace': seq<Mem>)
    requires s.Watch() && n in s.own && s.own[n] == Record
    requires MidWatch(mem', s.own, s.watchedRoot, s.watched, trace')
    ensures WatchOk(mem', s.own[n := role], s.flm, s.watchedRoot, s.watched, trace')
  {
    forall k | k in s.watched ensures WatchRole(s.own[n := role], s.watchedRoot, k, s.watched[k]) {
      assert WatchRole(s.own, s.watchedRoot, k, s.watched[k]);
    }
  }

  lemma {:induction false} SizesKept(mem: Mem, mem': Mem, ext: map<nat, nat>)
    requires SizesOk(mem, ext) && mem'.Keys == mem.Keys && forall a :: a in mem ==> |mem'[a]| == |mem[a]|
    ensures SizesOk(mem', ext)
  {}

  /** The key's own list is not popped for a node that the key's path lacks: were that list not
      empty, the map would hold its head, so the path would exist. */
  lemma {:induction false} OwnListSafe(s: State, key: nat, size: nat)
    requires s.Ok(NO_KEY) && s.flm != 0 && size < KEY_LIMIT && !HasPath(s.shapes[s.flm], key)
    ensures key == size ==> s.List(size) == []
  {
    HeadIsCached(s, size);
  }

  ghost function WithMiddle(s: State, root: nat, key: nat, n: nat, trace: seq<Mem>): State
    requires root in s.mem && |s.mem[root]| == L1_SIZE && root in s.shapes
  {
    var sh := s.shapes[root];
    s.(mem := Put(s.mem, root, Top(key), n)[n := Zeros(L2_SIZE + 1)], own := s.own[n := Middle(root, Top(key))],
       shapes := s.shapes[root := sh.(l2 := sh.l2[Top(key) := n])], trace := trace)
  }

  lemma {:induction false} MiddleAdded(s1: State, root: nat, key: nat, n: nat, s': State)
    requires s1.Ok(NO_KEY) && root in s1.shapes && TrieOk(s1.mem, s1.own, root, s1.shapes[root])
    requires Top(key) !in s1.shapes[root].l2 && !HasPath(s1.shapes[root], key)
    requires n in s1.ext && s1.ext[n] == L2_BYTES && n in s1.own && s1.own[n] == Record && n != root
    requires root in s1.mem && |s1.mem[root]| == L1_SIZE && s' == WithMiddle(s1, root, key, n, s'.trace)
    requires MidWatch(s'.mem, s1.own, s1.watchedRoot, s1.watched, s'.trace)
    ensures s'.Ok(NO_KEY) && TrieOk(s'.mem, s'.own, root, s'.shapes[root])
    ensures Top(key) in s'.shapes[root].l2 && !HasPath(s'.shapes[root], key)
    ensures forall k: nat :: s'.Value(root, k) == s1.Value(root, k)
    ensures forall a :: a in s1.mem && a != n && !NodeOf(s1.own, root, a) ==> a in s'.mem && s'.mem[a] == s1.mem[a]
  {
    hide ArenaOk, RegionsOk, WatchOk, CoreOk, TrieOk, MidWatch, NodeOf;
    NodeReady(s1, L2_BYTES, n);
    NotRoot(s1, root, n);
    GrowMiddle(s1.mem, s1.own, root, s1.shapes[root], Top(key), n);
    CoreGrow(s1.mem, s1.own, s1.shapes, s1.free, s1.flm, root, s'.mem, n, Middle(root, Top(key)), s'.shapes[root]);
    WatchRelabelled(s1, n, Middle(root, Top(key)), s'.mem, s'.trace);
    SizesKept(s1.mem, s'.mem, s1.ext);
  }

  /** Handing out an object and making it a node for the key is progress of cmalloc_map. */
  lemma {:induction false} NodeGrew(s: State, s1: State, root: nat, key: nat, n: nat, size: nat, role: Role, s': State)
    requires s.Ok(NO_KEY) && root in s.shapes && TrieOk(s.mem, s.own, root, s.shapes[root]) &&
      !HasPath(s.shapes[root], key)
    requires Handed(s, s1, size, n) && size < KEY_LIMIT && NodeFor(role, root, key) && root in s'.shapes
    requires s' == s1.(mem := s'.mem, own := s1.own[n := role], shapes := s1.shapes[root := s'.shapes[root]],
        trace := s'.trace)
    requires s1.trace <= s'.trace
    requires forall k: nat :: s'.Value(root, k) == s1.Value(root, k)
    requires forall a :: a in s1.mem && a != n && !NodeOf(s1.own, root, a) ==> a in s'.mem && s'.mem[a] == s1.mem[a]
    ensures Grew(s, s', root, key, {size})
  {
    hide ArenaOk, RegionsOk, WatchOk, CoreOk, TrieOk, HasPath, Private, NodeOf, SizesOk, OwnGrew, ListsPopped,
      OtherKeys, Others;
    FlmRole(s);
    TrieAfterAlloc(s, s1, root, size, n);
    assert OwnGrew(s.own, s'.own, root, key) by { NodeOwn(s, s1, root, key, n, size, role, s'.own); }
    assert ListsPopped(s, s', {size}) by { NodeLists(s, s1, n, size, s'); }
    RootRole(s.mem, s.own, root, s.shapes[root]);
    if root == s.flm {
      OwnListSafe(s, key, size);
    } else {
      NodeKeys(s, s1, s', root, key);
    }
    NodeAddedOthers(s, s1, root, n, size, s');
  }

  lemma {:induction false} NodeOwn(s: State, s1: State, root: nat, key: nat, n: nat, size: nat, role: Role,
          own': map<nat, Role>)
    requires Handed(s, s1, size, n) && NodeFor(role, root, key) && own' == s1.own[n := role] && s.mem.Keys == s.own.Keys
    ensures OwnGrew(s.own, own', root, key)
  {}

  lemma {:induction false} NodeLists(s: State, s1: State, n: nat, size: nat, s': State)
    requires Handed(s, s1, size, n) && s'.free == s1.free
    ensures ListsPopped(s, s', {size})
  {
    forall m ensures s'.List(m) == s.List(m) || (m in {size} && s'.List(m) == Popped(s.List(m))) {
      assert s'.List(m) == s1.List(m);
    }
  }

  lemma {:induction false} NodeKeys(s: State, s1: State, s': State, root: nat, key: nat)
    requires root in s.shapes && root in s1.shapes && root in s'.shapes
    requires forall k: nat :: s1.Value(root, k) == s.Value(root, k)
    requires forall k: nat :: s'.Value(root, k) == s1.Value(root, k)
    ensures OtherKeys(s, s', root, key)
  {
    forall k: nat ensures s'.Value(root, k) == s.Value(root, k) {
      assert s'.Value(root, k) == s1.Value(root, k);
    }
  }

  /** The counts of a client's trie after a middle node is added. */
  lemma {:induction false} MiddleCounts(s: State, s1: State, root: nat, key: nat, n: nat, s': State)
    requires s.Ok(NO_KEY) && s.Trie(root) && root != s.flm && Top(key) !in s.shapes[root].l2
    requires Handed(s, s1, L2_BYTES, n) && root in s1.mem && |s1.mem[root]| == L1_SIZE
    requires s' == WithMiddle(s1, root, key, n, s'.trace)
    ensures Exact(s'.mem, s'.shapes[root]) && NoneEmptyBut(s'.mem, s'.shapes[root], Top(key), (L1_SIZE, 0))
  {
    hide ArenaOk, RegionsOk, WatchOk, CoreOk, TrieOk, Exact, NoneEmptyBut, Private, NodeOf;
    TrieAfterAlloc(s, s1, root, L2_BYTES, n);
    NodeReady(s1, L2_BYTES, n);
    TrieFrame(s.mem, s.own, s1.mem, s1.own, root, s.shapes[root]);
    GrowMiddleCounts(s1.mem, s1.own, root, s.shapes[root], Top(key), n);
  }

  ghost function WithLeaf(s: State, root: nat, key: nat, n: nat, c: nat, trace: seq<Mem>): State
    requires root in s.shapes && Top(key) in s.shapes[root].l2
    requires var m := s.shapes[root].l2[Top(key)]; m in s.mem && |s.mem[m]| == L2_SIZE + 1 && m != n
  {
    var sh := s.shapes[root];
    var p := (Top(key), Mid(key));
    s.(mem := PutLeaf(s.mem, sh.l2[Top(key)], Mid(key), n, c), own := s.own[n := Leaf(root, Top(key), Mid(key))],
       shapes := s.shapes[root := sh.(l3 := sh.l3[p := n])], trace := trace)
  }

  lemma {:induction false} LeafAdded(s1: State, root: nat, key: nat, n: nat, c: nat, s': State)
    requires s1.Ok(NO_KEY) && root in s1.shapes && TrieOk(s1.mem, s1.own, root, s1.shapes[root])
    requires Top(key) in s1.shapes[root].l2 && !HasPath(s1.shapes[root], key)
    requires MiddleOk(s1.mem, s1.own, root, s1.shapes[root], Top(key))
    requires n in s1.ext && s1.ext[n] == L3_BYTES && n in s1.own && s1.own[n] == Record
    requires s' == WithLeaf(s1, root, key, n, c, s'.trace)
    requires MidWatch(s'.mem, s1.own, s1.watchedRoot, s1.watched, s'.trace)
    ensures s'.Ok(NO_KEY) && TrieOk(s'.mem, s'.own, root, s'.shapes[root]) && HasPath(s'.shapes[root], key)
    ensures forall k: nat :: s'.Value(root, k) == s1.Value(root, k)
    ensures forall a :: a in s1.mem && a != n && !NodeOf(s1.own, root, a) ==> a in s'.mem && s'.mem[a] == s1.mem[a]
  {
    hide ArenaOk, RegionsOk, WatchOk, CoreOk, TrieOk, MidWatch, NodeOf;
    NodeReady(s1, L3_BYTES, n);
    MiddleIsNode(s1.mem, s1.own, root, s1.shapes[root], Top(key));
    GrowLeaf(s1.mem, s1.own, root, s1.shapes[root], (Top(key), Mid(key)), n, c);
    CoreGrow(s1.mem, s1.own, s1.shapes, s1.free, s1.flm, root, s'.mem, n, Leaf(root, Top(key), Mid(key)),
        s'.shapes[root]);
    WatchRelabelled(s1, n, Leaf(root, Top(key), Mid(key)), s'.mem, s'.trace);
    SizesKept(s1.mem, s'.mem, s1.ext);
  }

  lemma {:induction false} MiddleIsNode(mem: Mem, own: map<nat, Role>, root: nat, sh: Shape, i: nat)
    requires TrieOk(mem, own, root, sh) && i in sh.l2
    ensures NodeOf(own, root, sh.l2[i]) && MiddleOk(mem, own, root, sh, i)
  {
    assert MiddleOk(mem, own, root, sh, i);
  }

  lemma {:induction false} LeafIsNode(mem: Mem, own: map<nat, Role>, root: nat, sh: Shape, key: nat)
    requires TrieOk(mem, own, root, sh) && HasPath(sh, key)
    ensures LeafOk(mem, own, root, sh, (Top(key), Mid(key))) && NodeOf(own, root, sh.l3[(Top(key), Mid(key))])
    ensures Top(key) in sh.l2 && MiddleOk(mem, own, root, sh, Top(key))
  {
    assert LeafOk(mem, own, root, sh, (Top(key), Mid(key)));
    assert MiddleOk(mem, own, root, sh, Top(key));
  }

  /** The counts of a client's trie after a leaf is added. */
  lemma {:induction false} LeafCounts(s: State, s1: State, root: nat, key: nat, n: nat, c: nat, s': State)
    requires s.Ok(NO_KEY) && root != s.flm && root in s.shapes && TrieOk(s.mem, s.own, root, s.shapes[root])
    requires Exact(s.mem, s.shapes[root]) && NoneEmptyBut(s.mem, s.shapes[root], Top(key), (L1_SIZE, 0))
    requires Top(key) in s.shapes[root].l2 && !HasPath(s.shapes[root], key)
    requires Handed(s, s1, L3_BYTES, n) && MiddleOk(s1.mem, s1.own, root, s1.shapes[root], Top(key))
    requires c == (s1.mem[s1.shapes[root].l2[Top(key)]][L2_SIZE] + 1) % SIZE_LIMIT
    requires s' == WithLeaf(s1, root, key, n, c, s'.trace)
    ensures Exact(s'.mem, s'.shapes[root]) && NoneEmptyBut(s'.mem, s'.shapes[root], L1_SIZE, (Top(key), Mid(key)))
  {
    hide ArenaOk, RegionsOk, WatchOk, CoreOk, TrieOk, Private, NodeOf;
    TrieAfterAlloc(s, s1, root, L3_BYTES, n);
    NodeReady(s1, L3_BYTES, n);
    TrieCountsFrame(s.mem, s.own, s1.mem, s1.own, root, s.shapes[root], Top(key));
    MiddleCountBound(s1, root, Top(key));
    GrowLeafCounts(s1.mem, s1.own, root, s1.shapes[root], (Top(key), Mid(key)), n, c);
  }

  /** A leaf just allocated, linked in and counted completes the path. */
  lemma {:induction false} LeafPlaced(s: State, s1: State, root: nat, key: nat, n: nat, c: nat, s': State)
    requires HalfWay(s, root, key) && Handed(s, s1, L3_BYTES, n) && root in s1.shapes &&
      s1.shapes[root] == s.shapes[root] && TrieOk(s1.mem, s1.own, root, s1.shapes[root])
    requires MiddleOk(s1.mem, s1.own, root, s1.shapes[root], Top(key))
    requires c == (s1.mem[s1.shapes[root].l2[Top(key)]][L2_SIZE] + 1) % SIZE_LIMIT
    requires s' == WithLeaf(s1, root, key, n, c, s'.trace) && s1.trace <= s'.trace
    requires MidWatch(s'.mem, s1.own, s1.watchedRoot, s1.watched, s'.trace)
    ensures LeafThere(s', root, key) && Grew(s, s', root, key, {L3_BYTES})
  {
    hide ArenaOk, RegionsOk, WatchOk, CoreOk, SizesOk, TrieOk, Exact, NoneEmptyBut, Grew, MidWatch, BumpedTo, PutLeaf;
    LeafAdded(s1, root, key, n, c, s');
    NodeGrew(s, s1, root, key, n, L3_BYTES, Leaf(root, Top(key), Mid(key)), s');
    if root != s.flm { LeafCounts(s, s1, root, key, n, c, s'); }
  }

  lemma {:induction false} TrieCountsFrame(mem: Mem, own: map<nat, Role>, mem': Mem, own': map<nat, Role>, r: nat,
          sh: Shape, i: nat)
    requires TrieOk(mem, own, r, sh) && SameNodes(mem, own, mem', own', r)
    requires Exact(mem, sh) && NoneEmptyBut(mem, sh, i, (L1_SIZE, 0))
    ensures Exact(mem', sh) && NoneEmptyBut(mem', sh, i, (L1_SIZE, 0))
  {
    forall j | j in sh.l2 ensures sh.l2[j] in mem' && mem'[sh.l2[j]] == mem[sh.l2[j]] {
      assert MiddleOk(mem, own, r, sh, j);
    }
    forall p | p in sh.l3 ensures sh.l3[p] in mem' && mem'[sh.l3[p]] == mem[sh.l3[p]] {
      assert LeafOk(mem, own, r, sh, p);
    }
  }

  ghost function WithSlot(s: State, root: nat, key: nat, v: nat, c: nat, trace: seq<Mem>): State
    requires root in s.shapes && HasPath(s.shapes[root], key)
    requires var a := s.shapes[root].l3[(Top(key), Mid(key))]; a in s.mem && |s.mem[a]| == L3_SIZE + 1
  {
    s.(mem := PutSlot(s.mem, s.shapes[root].l3[(Top(key), Mid(key))], key, v, c), trace := trace)
  }

  /** Writing the key's slot. */
  lemma {:induction false} SlotWritten(s: State, root: nat, key: nat, v: nat, c: nat, s': State)
    requires s.Ok(NO_KEY) && root in s.shapes && TrieOk(s.mem, s.own, root, s.shapes[root])
    requires key < KEY_LIMIT && HasPath(s.shapes[root], key) &&
      LeafOk(s.mem, s.own, root, s.shapes[root], (Top(key), Mid(key)))
    requires s' == WithSlot(s, root, key, v, c, s'.trace) && s.trace <= s'.trace
    requires MidWatch(s'.mem, s.own, s.watchedRoot, s.watched, s'.trace)
    ensures s'.Ok(if root == s.flm then key else NO_KEY) && TrieOk(s'.mem, s'.own, root, s'.shapes[root])
    ensures s'.Value(root, key) == v && Grew(s, s', root, key, {}) && s'.mem.Keys == s.mem.Keys
    ensures forall a :: a in s.mem && !NodeOf(s.own, root, a) ==> s'.mem[a] == s.mem[a]
  {
    hide ArenaOk, RegionsOk, CoreOk, TrieOk, AllHold, TraceHolds, NodeOf, Private;
    WriteSlot(s.mem, s.own, root, s.shapes[root], key, v, c);
    LeafIsNode(s.mem, s.own, root, s.shapes[root], key);
    FlmRole(s);
    RootRole(s.mem, s.own, root, s.shapes[root]);
    CoreWrite(s.mem, s.own, s.shapes, s.free, s.flm, root, s'.mem, key);
    SizesKept(s.mem, s'.mem, s.ext);
  }

  lemma {:induction false} NodeReady(s: State, size: nat, n: nat)
    requires s.Ok(NO_KEY) && n in s.ext && s.ext[n] == size
    ensures n in s.mem && n in s.own && n != 0 && WORD * |s.mem[n]| == size
  {}

  lemma {:induction false} NotRoot(s: State, root: nat, n: nat)
    requires root in s.shapes && TrieOk(s.mem, s.own, root, s.shapes[root]) && n in s.own && s.own[n] == Record
    ensures n != root && !NodeOf(s.own, root, n) && NodeOf(s.own, root, root)
  {}

  lemma {:induction false} NodeAddedOthers(s: State, s1: State, root: nat, n: nat, size: nat, s': State)
    requires Handed(s, s1, size, n) && s.mem.Keys == s.own.Keys
    requires forall a :: a in s1.mem && a != n && !NodeOf(s1.own, root, a) ==> a in s'.mem && s'.mem[a] == s1.mem[a]
    ensures Others(s, s', root)
  {
    hide State.Ok, Steady, BumpedTo;
    forall a | a in s.mem && !Private(s.own, s.flm, a) && !NodeOf(s.own, root, a)
      ensures a in s'.mem && s'.mem[a] == s.mem[a]
    {
      assert s1.mem[a] == s.mem[a];
    }
  }

  /** The key's middle node exists, its leaf does not. */
  ghost predicate HalfWay(s: State, root: nat, key: nat) {
    s.Ok(NO_KEY) && root in s.shapes && TrieOk(s.mem, s.own, root, s.shapes[root]) && key < KEY_LIMIT &&
    Top(key) in s.shapes[root].l2 && !HasPath(s.shapes[root], key) &&
    (root != s.flm ==> Exact(s.mem, s.shapes[root]) && NoneEmptyBut(s.mem, s.shapes[root], Top(key), (L1_SIZE, 0)))
  }

  /** The key's leaf exists, perhaps still empty. */
  ghost predicate LeafThere(s: State, root: nat, key: nat) {
    s.Ok(NO_KEY) && root in s.shapes && TrieOk(s.mem, s.own, root, s.shapes[root]) && key < KEY_LIMIT &&
    HasPath(s.shapes[root], key) &&
    (root != s.flm ==>
      Exact(s.mem, s.shapes[root]) && NoneEmptyBut(s.mem, s.shapes[root], L1_SIZE, (Top(key), Mid(key))))
  }

  /** Between two stores: the watched paths are in place now and have been so far, and the trace has
      missed no store. */
  ghost predicate MidWatch(mem: Mem, own: map<nat, Role>, r: nat, watched: map<nat, Path>, trace: seq<Mem>) {
    WatchRoles(own, r, watched) && AllHold(mem, r, watched) && TraceHolds(trace, r, watched) && TraceOk(trace, mem) &&
    (watched != map[] ==> r in own && own[r] == TrieRoot)
  }

  lemma {:induction false} WatchParts(s: State)
    requires s.Watch()
    ensures MidWatch(s.mem, s.own, s.watchedRoot, s.watched, s.trace)
  {}

  lemma {:induction false} RecordIsNoNode(s: State, n: nat)
    requires s.Watch() && n in s.own && s.own[n] == Record
    ensures s.watched != map[] ==> !NodeOf(s.own, s.watchedRoot, n)
  {}

  lemma {:induction false} GrewNot(s: State, root: nat, key: nat, sizes: set<nat>)
    requires root in s.shapes
    ensures Grew(s, s, root, key, sizes)
  {}

  lemma {:induction false} GrewFacts(s: State, s': State, root: nat, key: nat, sizes: set<nat>)
    requires Grew(s, s', root, key, sizes)
    ensures s'.flm == s.flm && s'.watched == s.watched && s'.watchedRoot == s.watchedRoot && root in s'.shapes
  {}

  lemma {:induction false} TrieHasMiddle(s: State, root: nat, key: nat)
    requires s.Ok(NO_KEY) && s.Trie(root) && key < KEY_LIMIT && Top(key) in s.shapes[root].l2 &&
      !HasPath(s.shapes[root], key)
    ensures HalfWay(s, root, key)
  {
    IndicesBelow(s.mem, s.own, root, s.shapes[root]);
  }

  lemma {:induction false} TrieHasLeaf(s: State, root: nat, key: nat)
    requires s.Ok(NO_KEY) && s.Trie(root) && key < KEY_LIMIT && HasPath(s.shapes[root], key)
    ensures LeafThere(s, root, key)
  {
    IndicesBelow(s.mem, s.own, root, s.shapes[root]);
  }

  lemma {:induction false} IndicesBelow(mem: Mem, own: map<nat, Role>, root: nat, sh: Shape)
    requires TrieOk(mem, own, root, sh)
    ensures forall i :: i in sh.l2 ==> i < L1_SIZE
    ensures forall p :: p in sh.l3 ==> p.0 < L1_SIZE
  {
    forall i | i in sh.l2 ensures i < L1_SIZE { assert MiddleOk(mem, own, root, sh, i); }
    forall p | p in sh.l3 ensures p.0 < L1_SIZE {
      assert LeafOk(mem, own, root, sh, p);
    }
  }

  /** What the root says about the key's middle node. */
  lemma {:induction false} RootSlot(mem: Mem, own: map<nat, Role>, root: nat, sh: Shape, key: nat)
    requires TrieOk(mem, own, root, sh)
    ensures root in mem && |mem[root]| == L1_SIZE && root in own && own[root] == TrieRoot
    ensures mem[root][Top(key)] == At(sh.l2, Top(key))
    ensures Top(key) in sh.l2 ==> MiddleOk(mem, own, root, sh, Top(key))
    ensures HasPath(sh, key) ==> Top(key) in sh.l2 && LeafOk(mem, own, root, sh, (Top(key), Mid(key)))
  {
    assert Top(key) in sh.l2 ==> MiddleOk(mem, own, root, sh, Top(key));
    assert HasPath(sh, key) ==> LeafOk(mem, own, root, sh, (Top(key), Mid(key)));
  }

  /** cmalloc_map has mapped the key: other keys of a client's trie keep their values, at most one
      middle node and one leaf have come into use, each list has been popped at most once, and the
      list of the key, if the map is the free-list map, not at all. */
  ghost predicate Mapped(s: State, s': State, root: nat, key: nat, value: nat) {
    s'.Ok(if root == s.flm then key else NO_KEY) && s'.Trie(root) && s'.Value(root, key) == value &&
    Grew(s, s', root, key, {L2_BYTES, L3_BYTES})
  }

  lemma {:induction false} CoreParts(s: State)
    requires s.Ok(NO_KEY)
    ensures s.Core(NO_KEY) && NodesBack(s.own, s.shapes) && s.mem.Keys == s.own.Keys
  {}

  lemma {:induction false} TrieRootOk(s: State, r: nat)
    requires s.Trie(r)
    ensures r in s.shapes && TrieOk(s.mem, s.own, r, s.shapes[r])
  {}

  /** The free-list map is not watched. */
  lemma {:induction false} NoWatch(s: State)
    requires s.Ok(NO_KEY)
    ensures s.flm != 0 && s.flm == s.watchedRoot ==> s.watched == map[]
    ensures s.flm != 0 ==> s.Trie(s.flm)
  {}

  /** Whether or not a chunk was opened for it, the object keeps the arena packed. */
  lemma {:induction false} ReadyToBump(s0: State, s: State, size: nat)
    requires s0.Ok(NO_KEY) && 0 < size <= s.end - s.cur
    requires if s0.arena != 0 && size <= s0.end - s0.cur then s == s0 else ChunkOpened(s0, s)
    ensures s.Loose() && s.arena != 0
    ensures PackedOk(s.chunks, s.ext[s.cur := size], s.home[s.cur := s.arena], s.arena, AlignUp(s.cur + size))
  {
    hide WatchOk, CoreOk, SizesOk, PackedOk, LayoutOk, Steady;
    assert s0.Loose();
    CurAligned(s);
    Bump(s.mapped, s.chunks, s.ext, s.home, s.arena, s.cur, s.end, size, AlignUp(s.cur + size));
    NotChunk(s0, s.arena);
    BumpPacked(s0.mapped, s0.chunks, s0.ext, s0.home, s0.arena, s0.cur, s0.end, s.chunks, s.arena, s.cur, size,
      AlignUp(s.cur + size));
  }

  lemma {:induction false} CurAligned(s: State)
    requires s.Loose() && s.arena != 0
    ensures s.cur % 16 == 0
  {}

  lemma {:induction false} NotChunk(s: State, a: nat)
    requires s.Loose()
    ensures a !in s.mapped ==> a !in s.chunks
  {}

  lemma {:induction false} HandedAfter(s0: State, s: State, s': State, size: nat, r: nat)
    requires if s0.arena != 0 && size <= s0.end - s0.cur then s == s0 else ChunkOpened(s0, s)
    requires Handed(s, s', size, r) && s.List(size) == [] && s.arena != 0 && size <= s.end - s.cur
    ensures Handed(s0, s', size, r)
  {
    hide ArenaOk, LayoutOk, RegionsOk, WatchOk, CoreOk, SizesOk, Private;
    if s != s0 {
      assert s0.List(size) == s.List(size);
      forall n ensures s'.List(n) == if n == size then Popped(s0.List(n)) else s0.List(n) {
        assert s0.List(n) == s.List(n);
      }
    }
  }

  // ---- cmalloc_initialize_range_map and cmalloc_free_metadata ----

  const EMPTY: Shape := Shape(map[], map[])

  ghost function WithRoot(s: State, r: nat): State {
    s.(own := s.own[r := TrieRoot], shapes := s.shapes[r := EMPTY])
  }

  /** A zeroed object of an L1 node's size is an empty trie. No memset is needed: L1 nodes are never
      freed, so the object always comes from fresh memory. */
  lemma {:induction false} RootAdded(s: State, s1: State, r: nat)
    requires s.Ok(NO_KEY) && Handed(s, s1, L1_BYTES, r)
    ensures r !in s.mem && r in s1.mem && |s1.mem[r]| == L1_SIZE
    ensures WithRoot(s1, r).Ok(NO_KEY) && r !in s.shapes && r != s.flm
    ensures TrieOk(s1.mem, WithRoot(s1, r).own, r, EMPTY) && Counted(s1.mem, EMPTY)
    ensures s.watched != map[] ==> r != s.watchedRoot
    ensures forall k: nat :: WithRoot(s1, r).Value(r, k) == 0
  {
    hide ArenaOk, RegionsOk, WatchOk, CoreOk, Steady, Untouched;
    FreshRoot(s, s1, r);
    WatchParts(s);
    NodeReady(s1, L1_BYTES, r);
    RootCore(s1, r);
    WatchRelabelled(s1, r, TrieRoot, s1.mem, s1.trace) by { WatchParts(s1); }
    RecordIsNoNode(s1, r);
  }

  lemma {:induction false} FreshRoot(s: State, s1: State, r: nat)
    requires s.Ok(NO_KEY) && Handed(s, s1, L1_BYTES, r)
    ensures r !in s.mem && r !in s.own && r in s1.mem && s1.mem[r] == Zeros(L1_SIZE) && r !in s.shapes && r != s.flm
  {
    hide ArenaOk, RegionsOk, WatchOk, TrieOk, HeadsAgree, Steady, Untouched;
    assert L1_BYTES !in s.free;
    assert s.List(L1_BYTES) == [];
    assert L1_BYTES / WORD == L1_SIZE;
  }

  lemma {:induction false} RootCore(s: State, r: nat)
    requires s.Core(NO_KEY) && r in s.own && s.own[r] == Record && r != s.flm && r !in s.shapes
    ensures WithRoot(s, r).Core(NO_KEY)
  {
    var s' := WithRoot(s, r);
    CoreFrame(s.mem, s.own, s.shapes, s'.mem, s'.own, s'.shapes, s.free, s.flm, NO_KEY);
  }

  /** The free-list map comes into being with the first free; all lists are empty then. */
  lemma {:induction false} FlmCreated(s: State, r: nat)
    requires s.Ok(NO_KEY) && s.flm == 0 && r in s.shapes && TrieOk(s.mem, s.own, r, s.shapes[r])
    requires forall k: nat :: s.Value(r, k) == 0
    requires s.watched != map[] ==> r != s.watchedRoot
    ensures s.(flm := r).Ok(NO_KEY)
  {
    hide ArenaOk, RegionsOk;
    forall n: nat | n < KEY_LIMIT ensures s.Value(r, n) == Head(s.free, n) {
      assert FreeList(s.free, n) == [];
    }
    assert HeadsAgree(s.mem, s.shapes[r], s.free, NO_KEY);
  }

  /** A record may be written without consequence for lists, tries and readers. */
  lemma {:induction false} RecordStored(s: State, a: nat, s': State)
    requires s.Ok(NO_KEY) && a in s.own && s.own[a] == Record && a in s.mem && |s.mem[a]| > 0
    requires s' == s.(mem := s'.mem, trace := s'.trace) && s.trace <= s'.trace
    requires a in s'.mem && |s'.mem[a]| == |s.mem[a]| && s'.mem == s.mem[a := s'.mem[a]]
    requires MidWatch(s'.mem, s.own, s.watchedRoot, s.watched, s'.trace)
    ensures s'.Ok(NO_KEY)
    ensures s.flm != 0 ==> s.flm in s.shapes && forall k: nat :: s'.Value(s.flm, k) == s.Value(s.flm, k)
  {
    hide ArenaOk, RegionsOk;
    CoreFrame(s.mem, s.own, s.shapes, s'.mem, s.own, s.shapes, s.free, s.flm, NO_KEY);
    if s.flm != 0 { TrieFrame(s.mem, s.own, s'.mem, s.own, s.flm, s.shapes[s.flm]); }
    SizesKept(s.mem, s'.mem, s.ext);
  }

  /** cmalloc_free_metadata has put ptr on the list of its size. No nested allocation popped that list,
      so the head read before them was still the head; other lists lost their head at most. */
  ghost predicate Freed(s: State, s': State, ptr: nat, size: nat) {
    s'.Ok(NO_KEY) && Steady(s, s') && s'.flm != 0 && (s.flm != 0 ==> s'.flm == s.flm) &&
    s'.List(size) == s.List(size) + [ptr] && ListsPoppedBut(s, s', size) &&
    ptr in s'.own && s'.own[ptr] == Cached(size, |s.List(size)|) && Kept(s, s', ptr) &&
    RolesAfterFree(s, s', ptr, size) &&
    (s'.flm == s.flm || s'.flm !in s.shapes) &&
    (forall r :: r in s.shapes && r != s.flm ==> r in s'.shapes && s'.shapes[r] == s.shapes[r]) &&
    forall r :: r in s'.shapes ==> r in s.shapes || (s.flm == 0 && r == s'.flm)
  }

  /** Besides ptr, an object's role is new only if it is one of the two nodes of the free-list map that
      this size needs, or the root of that map, made by the first free. */
  ghost predicate RolesAfterFree(s: State, s': State, ptr: nat, size: nat) {
    forall a {:trigger s'.own[a]} :: a in s'.own && a != ptr ==>
      (a in s.own && s'.own[a] == s.own[a]) || NodeFor(s'.own[a], s'.flm, size) ||
      (s.flm == 0 && a == s'.flm && a !in s.own)
  }

  /** No two objects are the same node of a trie. With RolesAfterFree: a free takes at most one object
      of each node size, be it from a list or from fresh memory. */
  lemma {:induction false} OneNodeEach(s: State, a: nat, b: nat)
    requires s.Ok(NO_KEY) && a in s.own && b in s.own && s.own[a] == s.own[b] && (s.own[a].Middle? || s.own[a].Leaf?)
    ensures a == b
  {
    hide ArenaOk, RegionsOk, WatchOk, FreeOk, HeadsAgree, TrieOk, SizesOk;
    assert a in s.own && b in s.own;
  }

  ghost predicate ListsPoppedBut(s: State, s': State, size: nat) {
    forall n {:trigger s'.List(n)} {:trigger s.List(n)} :: n != size ==>
      s'.List(n) == s.List(n) || ((n == L2_BYTES || n == L3_BYTES) && s'.List(n) == Popped(s.List(n)))
  }

  /** Objects in use other than ptr and the nodes of the free-list map keep role and contents. */
  ghost predicate Kept(s: State, s': State, ptr: nat) {
    (forall a {:trigger a in s.own} {:trigger s'.own[a]} ::
      a in s.own && a != ptr && !s.own[a].Cached? ==> a in s'.own && s'.own[a] == s.own[a]) &&
    forall a {:trigger s.mem[a]} {:trigger s'.mem[a]} :: a in s.mem && a != ptr && !Private(s.own, s.flm, a) ==>
      a in s'.mem && s'.mem[a] == s.mem[a]
  }

  ghost function WithCached(s: State, ptr: nat, size: nat): State {
    s.(own := s.own[ptr := Cached(size, |s.List(size)|)], free := s.free[size := s.List(size) + [ptr]])
  }

  /** From linking the object to its being cached. */
  lemma {:induction false} Pushed(s: State, s2: State, s3: State, ptr: nat, size: nat)
    requires s.Ok(NO_KEY) && s.flm != 0 && 0 < size < KEY_LIMIT && size != L1_BYTES
    requires ptr in s.own && s.own[ptr] == Record && ptr in s.mem && WORD * |s.mem[ptr]| == size
    requires s2 == s.(mem := s2.mem, trace := s2.trace) && s2.Ok(NO_KEY) && s.trace <= s2.trace
    requires s2.mem == Put(s.mem, ptr, 0, Head(s.free, size))
    requires Mapped(s2, s3, s.flm, size, ptr)
    ensures Freed(s, WithCached(s3, ptr, size), ptr, size)
  {
    hide ArenaOk, RegionsOk, WatchOk, CoreOk, SizesOk, TrieOk, FreeList, Steady, OwnGrew, ListsPopped, OtherKeys,
      Others, Private, NodeOf;
    var s' := WithCached(s3, ptr, size);
    PtrStays(s2, s3, ptr, size);
    CorePush(s3.mem, s3.own, s3.shapes, s3.free, s3.flm, size, ptr);
    WatchRelabelled(s3, ptr, Cached(size, |s3.List(size)|), s3.mem, s3.trace) by { WatchParts(s3); }
    assert s'.Ok(NO_KEY);
    PushedLists(s, s2, s3, ptr, size);
    PushedKept(s, s2, s3, ptr, size);
    PushedRoles(s2, s3, ptr, size);
    PushedSteady(s, s2, s3, ptr, size);
  }

  lemma {:induction false} PushedRoles(s2: State, s3: State, ptr: nat, size: nat)
    requires Mapped(s2, s3, s2.flm, size, ptr)
    ensures RolesAfterFree(s2, WithCached(s3, ptr, size), ptr, size)
  {
    hide ArenaOk, RegionsOk, WatchOk, CoreOk, SizesOk, TrieOk, Steady, ListsPopped, OtherKeys, Others;
  }

  lemma {:induction false} PtrStays(s2: State, s3: State, ptr: nat, size: nat)
    requires s2.Ok(NO_KEY) && s2.flm != 0 && Mapped(s2, s3, s2.flm, size, ptr)
    requires ptr in s2.own && s2.own[ptr] == Record
    ensures ptr in s3.own && s3.own[ptr] == Record && ptr in s2.mem && ptr in s3.mem && s3.mem[ptr] == s2.mem[ptr]
    ensures Head(s3.free, size) == Head(s2.free, size) && s3.flm == s2.flm
  {
    hide ArenaOk, RegionsOk, WatchOk, FreeOk, SizesOk, HeadsAgree, NodesBack;
    assert s3.List(size) == s2.List(size);
    assert !Private(s2.own, s2.flm, ptr) && !NodeOf(s2.own, s2.flm, ptr);
    assert s3.mem[ptr] == s2.mem[ptr];
  }

  lemma {:induction false} PushedLists(s: State, s2: State, s3: State, ptr: nat, size: nat)
    requires s2.free == s.free && Mapped(s2, s3, s2.flm, size, ptr)
    ensures WithCached(s3, ptr, size).List(size) == s.List(size) + [ptr]
    ensures ListsPoppedBut(s, WithCached(s3, ptr, size), size)
    ensures s3.List(size) == s.List(size)
  {
    hide ArenaOk, RegionsOk, WatchOk, CoreOk, SizesOk, TrieOk, Steady, OwnGrew, OtherKeys, Others;
    var s' := WithCached(s3, ptr, size);
    assert s3.List(size) == s2.List(size) == s.List(size);
    forall n | n != size
      ensures s'.List(n) == s.List(n) || ((n == L2_BYTES || n == L3_BYTES) && s'.List(n) == Popped(s.List(n)))
    {
      assert s'.List(n) == s3.List(n) && s2.List(n) == s.List(n);
    }
  }

  lemma {:induction false} PushedKept(s: State, s2: State, s3: State, ptr: nat, size: nat)
    requires s.Ok(NO_KEY) && s2.own == s.own && s2.flm == s.flm && s.flm != 0
    requires Grew(s2, s3, s2.flm, size, {L2_BYTES, L3_BYTES})
    requires s2.mem.Keys == s.mem.Keys && forall a :: a in s.mem && a != ptr ==> s2.mem[a] == s.mem[a]
    ensures Kept(s, WithCached(s3, ptr, size), ptr)
  {
    hide ArenaOk, RegionsOk, WatchOk, CoreOk, SizesOk, TrieOk, Steady, OtherKeys, ListsPopped;
    var s' := WithCached(s3, ptr, size);
    forall a | a in s.mem && a != ptr && !Private(s.own, s.flm, a) ensures a in s'.mem && s'.mem[a] == s.mem[a] {
      assert s3.mem[a] == s2.mem[a];
    }
  }

  lemma {:induction false} PushedSteady(s: State, s2: State, s3: State, ptr: nat, size: nat)
    requires s2 == s.(mem := s2.mem, trace := s2.trace) && s.trace <= s2.trace &&
      Grew(s2, s3, s.flm, size, {L2_BYTES, L3_BYTES})
    ensures Steady(s, WithCached(s3, ptr, size)) && s3.flm == s.flm && s3.shapes.Keys == s.shapes.Keys
    ensures forall r :: r in s.shapes && r != s.flm ==> r in s3.shapes && s3.shapes[r] == s.shapes[r]
  {
    hide OtherKeys, ListsPopped, OwnGrew, Others;
  }

  /** Creating the free-list map first makes no difference to the caller. */
  lemma {:induction false} FreedAfterCreate(s: State, s1: State, s': State, ptr: nat, size: nat)
    requires s.flm == 0 && s1.flm != 0 && s1.flm !in s.shapes && s1.flm !in s.own && s1.flm !in s.mem && Steady(s, s1)
    requires s1.own == s.own[s1.flm := TrieRoot] && s1.shapes == s.shapes[s1.flm := EMPTY] &&
      s1.mem == s.mem[s1.flm := Zeros(L1_SIZE)]
    requires forall n :: s1.List(n) == s.List(n)
    requires NodesBack(s.own, s.shapes) && Freed(s1, s', ptr, size) && ptr in s.own
    ensures Freed(s, s', ptr, size)
  {
    hide ArenaOk, RegionsOk, WatchOk, CoreOk, SizesOk, Steady;
    SteadyTwice(s, s1, s');
    assert s1.List(size) == s.List(size);
    forall n | n != size
      ensures s'.List(n) == s.List(n) || ((n == L2_BYTES || n == L3_BYTES) && s'.List(n) == Popped(s.List(n)))
    {
      assert s1.List(n) == s.List(n);
    }
    forall a | a in s.mem && a != ptr && !Private(s.own, s.flm, a) ensures a in s'.mem && s'.mem[a] == s.mem[a] {
      assert s1.mem[a] == s.mem[a];
      NotNewRoot(s.own, s.shapes, s1.flm, a);
    }
    forall a | a in s.own && a != ptr && !s.own[a].Cached? ensures a in s'.own && s'.own[a] == s.own[a] {
      assert s1.own[a] == s.own[a];
    }
    assert Kept(s, s', ptr);
    forall r | r in s.shapes ensures r in s'.shapes && s'.shapes[r] == s.shapes[r] {
      assert r in s1.shapes && s1.shapes[r] == s.shapes[r];
    }
    forall a | a in s'.own && a != ptr
      ensures (a in s.own && s'.own[a] == s.own[a]) || NodeFor(s'.own[a], s'.flm, size) || (a == s'.flm && a !in s.own)
    {
      assert a in s1.own && a != s1.flm ==> s1.own[a] == s.own[a];
    }
  }

  lemma {:induction false} NotNewRoot(own: map<nat, Role>, shapes: map<nat, Shape>, r: nat, a: nat)
    requires NodesBack(own, shapes) && r !in shapes && r !in own && !(a in own && own[a].Cached?) && a != r
    ensures !Private(own[r := TrieRoot], r, a)
  {}

  // ---- cmalloc_unmap ----

  /** Records keep their role and contents. */
  ghost predicate RecordsKept(s: State, s': State) {
    forall a {:trigger a in s.own} {:trigger s'.own[a]} :: a in s.own && s.own[a] == Record && a in s.mem ==>
      a in s'.own && s'.own[a] == Record && a in s'.mem && s'.mem[a] == s.mem[a]
  }

  /** No object has become a record, and no trie has come into being but the free-list map. */
  ghost predicate NothingNew(s: State, s': State) {
    (forall a {:trigger s'.own[a]} :: a in s'.own && s'.own[a] == Record ==> a in s.own && s.own[a] == Record) &&
    forall r {:trigger r in s'.shapes} :: r in s'.shapes ==> r in s.shapes || (s.flm == 0 && r == s'.flm && r != 0)
  }

  lemma {:induction false} NothingNewTwice(s: State, s1: State, s2: State)
    requires NothingNew(s, s1) && NothingNew(s1, s2) && (s.flm != 0 ==> s1.flm == s.flm) &&
      (s1.flm != 0 ==> s2.flm == s1.flm)
    ensures NothingNew(s, s2)
  {
    forall a | a in s2.own && s2.own[a] == Record ensures a in s.own && s.own[a] == Record {
      assert a in s1.own && s1.own[a] == Record;
    }
    forall r | r in s2.shapes ensures r in s.shapes || (s.flm == 0 && r == s2.flm && r != 0) {
      assert r in s1.shapes || (s1.flm == 0 && r == s2.flm && r != 0);
    }
  }

  /** A node that has left the trie is on the free list of its size, or has gone from there into the
      free-list map. */
  ghost predicate Returned(s: State, s': State, root: nat) {
    forall a {:trigger s'.own[a]} {:trigger s.own[a]} :: a in s.own ==> IsReturned(s, s', root, a)
  }

  ghost predicate IsReturned(s: State, s': State, root: nat, a: nat)
    requires a in s.own
  {
    (NodeOf(s.own, root, a) ==> (a in s'.own && s'.own[a] == s.own[a]) || Private(s'.own, s'.flm, a)) &&
    (Private(s.own, s.flm, a) ==> Private(s'.own, s'.flm, a))
  }

  lemma {:induction false} ReturnedAfter(s: State, s1: State, s2: State, root: nat)
    requires s1.own == s.own && s1.flm == s.flm && Returned(s1, s2, root)
    ensures Returned(s, s2, root)
  {}

  lemma {:induction false} ReturnedTwice(s: State, s1: State, s2: State, root: nat)
    requires Returned(s, s1, root) && Returned(s1, s2, root) && s.own.Keys <= s1.own.Keys
    ensures Returned(s, s2, root)
  {
    hide Private;
    forall a | a in s.own ensures IsReturned(s, s2, root, a) {
      assert IsReturned(s, s1, root, a) && IsReturned(s1, s2, root, a);
    }
  }

  lemma {:induction false} SteadyTwice(s: State, s1: State, s2: State)
    requires Steady(s, s1) && Steady(s1, s2)
    ensures Steady(s, s2)
  {}

  /** The free-list map is the same, or has come into being. */
  ghost predicate FlmKept(s: State, s': State, root: nat) {
    (s.flm != 0 ==> s'.flm == s.flm) && (root != s.flm ==> s'.flm != root)
  }

  /** A client's trie keeps every value, its lost nodes are recycled, and clients keep their records. */
  ghost predicate Shrunk(s: State, s': State, root: nat) {
    Steady(s, s') && FlmKept(s, s', root) && RecordsKept(s, s') && NothingNew(s, s') && Returned(s, s', root) &&
    root in s.shapes && root in s'.shapes &&
    forall k: nat {:trigger s'.Value(root, k)} {:trigger s.Value(root, k)} :: s'.Value(root, k) == s.Value(root, k)
  }

  lemma {:induction false} ShrunkTwice(s: State, s1: State, s2: State, root: nat)
    requires s.Ok(NO_KEY) && s1.Ok(NO_KEY) && Shrunk(s, s1, root) && Shrunk(s1, s2, root) && root != s.flm
    ensures Shrunk(s, s2, root)
  {
    hide Steady, NothingNew, Returned, State.Ok;
    OwnGrows(s, s, s1);
    SteadyTwice(s, s1, s2);
    NothingNewTwice(s, s1, s2);
    ReturnedTwice(s, s1, s2, root);
    forall k: nat ensures s2.Value(root, k) == s.Value(root, k) { assert s1.Value(root, k) == s.Value(root, k); }
    forall a | a in s.own && s.own[a] == Record && a in s.mem
      ensures a in s2.own && s2.own[a] == Record && a in s2.mem && s2.mem[a] == s.mem[a]
    {
      assert a in s1.own && s1.own[a] == Record;
    }
  }

  /** The leaf is no longer a node of the trie, though the middle node still points to it. */
  ghost function LeafDetached(s: State, root: nat, key: nat): State
    requires root in s.shapes && HasPath(s.shapes[root], key)
  {
    var sh := s.shapes[root];
    var p := (Top(key), Mid(key));
    s.(own := s.own[sh.l3[p] := Record], shapes := s.shapes[root := sh.(l3 := sh.l3 - {p})])
  }

  ghost predicate EmptyLeaf(s: State, root: nat, key: nat) {
    LeafThere(s, root, key) && root != s.flm &&
    Slot(s.mem, s.shapes[root].l3[(Top(key), Mid(key))], L3_SIZE) == 0
  }

  lemma {:induction false} EmptyLeafSlots(s: State, root: nat, key: nat)
    requires EmptyLeaf(s, root, key)
    ensures forall i :: 0 <= i < L3_SIZE ==> Slot(s.mem, s.shapes[root].l3[(Top(key), Mid(key))], i) == 0
  {
    var words := s.mem[s.shapes[root].l3[(Top(key), Mid(key))]];
    assert CountOk(words, L3_SIZE);
    OccupiedZero(words[..L3_SIZE]);
    forall i | 0 <= i < L3_SIZE ensures words[i] == 0 { assert words[..L3_SIZE][i] == 0; }
  }

  /** No watched path runs through a node whose slots are all NULL. */
  lemma {:induction false} NotWatchedLeaf(s: State, a: nat)
    requires s.Watch() && a in s.own && s.own[a].Leaf?
    requires forall i :: 0 <= i < L3_SIZE ==> Slot(s.mem, a, i) == 0
    ensures forall k :: k in s.watched ==> s.watched[k].leaf != a && s.watched[k].mid != a
  {
    forall k | k in s.watched ensures s.watched[k].leaf != a && s.watched[k].mid != a {
      assert Holds(s.mem, s.watchedRoot, k, s.watched[k]) && WatchRole(s.own, s.watchedRoot, k, s.watched[k]);
    }
  }

  lemma {:induction false} NotWatchedMiddle(s: State, a: nat)
    requires s.Watch() && a in s.own && s.own[a].Middle?
    requires forall i :: 0 <= i < L2_SIZE ==> Slot(s.mem, a, i) == 0
    ensures forall k :: k in s.watched ==> s.watched[k].leaf != a && s.watched[k].mid != a
  {
    forall k | k in s.watched ensures s.watched[k].leaf != a && s.watched[k].mid != a {
      assert Holds(s.mem, s.watchedRoot, k, s.watched[k]) && WatchRole(s.own, s.watchedRoot, k, s.watched[k]);
    }
  }

  lemma {:induction false} LeafDetachedOk(s: State, root: nat, key: nat)
    requires EmptyLeaf(s, root, key)
    ensures LeafOk(s.mem, s.own, root, s.shapes[root], (Top(key), Mid(key))) && LeafDetached(s, root, key).Ok(NO_KEY)
  {
    hide ArenaOk, RegionsOk, SizesOk, TrieOk, Exact, NoneEmptyBut, FreeOk, NodesBack, HeadsAgree, WatchOk;
    var a := s.shapes[root].l3[(Top(key), Mid(key))];
    EmptyLeafSlots(s, root, key);
    LeafIsNode(s.mem, s.own, root, s.shapes[root], key);
    NotWatchedLeaf(s, a);
    RootRole(s.mem, s.own, root, s.shapes[root]);
    LeafRolesBack(s.own, s.shapes, root, key);
    DetachedCore(s, root, a, LeafDetached(s, root, key));
    DetachedWatch(s, a);
  }

  lemma {:induction false} LeafRolesBack(own: map<nat, Role>, shapes: map<nat, Shape>, root: nat, key: nat)
    requires NodesBack(own, shapes) && root in shapes && HasPath(shapes[root], key)
    requires var a := shapes[root].l3[(Top(key), Mid(key))]; a in own && own[a] == Leaf(root, Top(key), Mid(key))
    ensures var sh := shapes[root]; var p := (Top(key), Mid(key));
      NodesBack(own[sh.l3[p] := Record], shapes[root := sh.(l3 := sh.l3 - {p})])
  {}

  lemma {:induction false} MiddleRolesBack(own: map<nat, Role>, shapes: map<nat, Shape>, root: nat, i: nat)
    requires NodesBack(own, shapes) && root in shapes && i in shapes[root].l2
    requires var a := shapes[root].l2[i]; a in own && own[a] == Middle(root, i)
    ensures var sh := shapes[root];
      NodesBack(own[sh.l2[i] := Record], shapes[root := sh.(l2 := sh.l2 - {i})])
  {}

  lemma {:induction false} DetachedWatch(s: State, a: nat)
    requires s.Watch() && a in s.own && s.own[a] != TrieRoot
    requires forall k :: k in s.watched ==> s.watched[k].leaf != a && s.watched[k].mid != a
    ensures WatchOk(s.mem, s.own[a := Record], s.flm, s.watchedRoot, s.watched, s.trace)
  {
    forall k | k in s.watched ensures WatchRole(s.own[a := Record], s.watchedRoot, k, s.watched[k]) {
      assert WatchRole(s.own, s.watchedRoot, k, s.watched[k]);
    }
  }

  lemma {:induction false} DetachedCore(s: State, root: nat, a: nat, s': State)
    requires s.Core(NO_KEY) && root in s.shapes && root != s.flm && a in s.own && NodeOf(s.own, root, a) && a != root
    requires s' == s.(own := s.own[a := Record], shapes := s'.shapes) && NodesBack(s'.own, s'.shapes)
    requires s.flm != 0 ==> s.flm in s'.shapes && s'.shapes[s.flm] == s.shapes[s.flm]
    ensures s'.Core(NO_KEY)
  {
    CoreFrame(s.mem, s.own, s.shapes, s'.mem, s'.own, s'.shapes, s.free, s.flm, NO_KEY);
  }

  /** The nodes of a client's trie, and records, survive the freeing of another object. */
  lemma {:induction false} FreedFrame(s2: State, s3: State, root: nat, a: nat, size: nat)
    requires s2.Ok(NO_KEY) && Freed(s2, s3, a, size) && a in s2.own && s2.own[a] == Record
    requires root in s2.own && s2.own[root] == TrieRoot && root != s2.flm && root in s2.shapes
    ensures SameNodes(s2.mem, s2.own, s3.mem, s3.own, root)
    ensures forall x :: x in s2.own && s2.own[x] == Record && x != a ==>
      x in s3.own && s3.own[x] == Record && x in s2.mem && x in s3.mem && s3.mem[x] == s2.mem[x]
    ensures root in s3.shapes && s3.shapes[root] == s2.shapes[root] && root != s3.flm
    ensures s3.Ok(NO_KEY) && a in s3.own && s3.own[a].Cached?
    ensures s3.watchedRoot == s2.watchedRoot && s3.watched == s2.watched
  {
    hide ArenaOk, RegionsOk, WatchOk, FreeOk, HeadsAgree, NodesBack, SizesOk, ListsPoppedBut;
    FlmRole(s2);
    ClientNodes(s2.own, s2.flm, root);
  }

  /** A store to a node of a client's trie. */
  lemma {:induction false} NodeStored(s: State, root: nat, m: nat, s': State)
    requires s.Ok(NO_KEY) && root in s.own && s.own[root] == TrieRoot && root != s.flm
    requires m in s.own && NodeOf(s.own, root, m) && m in s.mem
    requires s' == s.(mem := s'.mem, trace := s'.trace) && m in s'.mem && |s'.mem[m]| == |s.mem[m]| &&
      s'.mem == s.mem[m := s'.mem[m]]
    requires MidWatch(s'.mem, s.own, s.watchedRoot, s.watched, s'.trace)
    ensures s'.Ok(NO_KEY)
  {
    hide ArenaOk, RegionsOk;
    FlmRole(s);
    ClientNodes(s.own, s.flm, root);
    CoreFrame(s.mem, s.own, s.shapes, s'.mem, s.own, s.shapes, s.free, s.flm, NO_KEY);
    SizesKept(s.mem, s'.mem, s.ext);
  }

  ghost predicate MiddleNext(s: State, root: nat, key: nat) {
    s.Ok(NO_KEY) && root in s.shapes && root != s.flm && TrieOk(s.mem, s.own, root, s.shapes[root]) &&
    Top(key) in s.shapes[root].l2 &&
    Exact(s.mem, s.shapes[root]) && NoneEmptyBut(s.mem, s.shapes[root], Top(key), (L1_SIZE, 0))
  }

  /** The leaf has been freed and its slot and count updated. */
  lemma {:induction false} LeafDropped(s: State, s3: State, root: nat, key: nat, m: nat, c: nat, s': State)
    requires EmptyLeaf(s, root, key) && Top(key) in s.shapes[root].l2 && m == s.shapes[root].l2[Top(key)]
    requires MiddleOk(s.mem, s.own, root, s.shapes[root], Top(key)) && c + 1 == Slot(s.mem, m, L2_SIZE)
    requires LeafDetached(s, root, key).Ok(NO_KEY)
    requires Freed(LeafDetached(s, root, key), s3, s.shapes[root].l3[(Top(key), Mid(key))], L3_BYTES)
    requires m in s3.mem && |s3.mem[m]| == L2_SIZE + 1
    requires s' == s3.(mem := PutMiddle(s3.mem, m, Mid(key), 0, c), trace := s'.trace) && s3.trace <= s'.trace
    requires MidWatch(s'.mem, s3.own, s3.watchedRoot, s3.watched, s'.trace)
    ensures MiddleNext(s', root, key) && Shrunk(s, s', root) && (c > 0 ==> Counted(s'.mem, s'.shapes[root]))
    ensures s'.shapes[root].l2 == s.shapes[root].l2
    ensures s'.List(L3_BYTES) == s.List(L3_BYTES) + [s.shapes[root].l3[(Top(key), Mid(key))]]
  {
    hide ArenaOk, RegionsOk, WatchOk, FreeOk, HeadsAgree, NodesBack, SizesOk, Steady, ListsPoppedBut, CoreOk, TrieOk,
      Exact, NoneEmptyBut, MidWatch, NodeOf, Kept;
    var sh := s.shapes[root];
    var a := sh.l3[(Top(key), Mid(key))];
    var s2 := LeafDetached(s, root, key);
    EmptyLeafSlots(s, root, key);
    DropLeaf(s.mem, s.own, root, sh, key, c);
    DropLeafCounts(s.mem, s.own, root, sh, key, c);
    RootRole(s.mem, s.own, root, sh);
    LeafIsNode(s.mem, s.own, root, sh, key);
    FreedFrame(s2, s3, root, a, L3_BYTES);
    MiddleIsNode(PutMiddle(s.mem, m, Mid(key), 0, c), s2.own, root, s2.shapes[root], Top(key));
    PutSameNodes(s.mem, s2.own, s3.mem, s3.own, root, m, Mid(key), 0, c);
    TrieFrame(PutMiddle(s.mem, m, Mid(key), 0, c), s2.own, s'.mem, s3.own, root, s2.shapes[root]);
    TrieCountsFrame(PutMiddle(s.mem, m, Mid(key), 0, c), s2.own, s'.mem, s3.own, root, s2.shapes[root], Top(key));
    NodeStored(s3, root, m, s');
    DroppedRecords(s, s2, s3, a, m, s');
    DroppedNodes(s, s2, s3, root, a, L3_BYTES, s');
    DroppedSteady(s, s2, s3, a, L3_BYTES, s', root);
    forall k: nat ensures s'.Value(root, k) == s.Value(root, k) {
      assert RangeMapSpec.Value(s'.mem, s'.shapes[root], k) ==
        RangeMapSpec.Value(PutMiddle(s.mem, m, Mid(key), 0, c), s2.shapes[root], k) ==
        RangeMapSpec.Value(s.mem, sh, k);
    }
  }

  /** Freeing a node takes it from the trie to its list, and no object in the arena's own use away. */
  lemma {:induction false} DroppedNodes(s: State, s2: State, s3: State, root: nat, a: nat, size: nat, s': State)
    requires s.Ok(NO_KEY) && root in s.shapes && root != s.flm && a in s.own && (s.own[a].Middle? || s.own[a].Leaf?)
    requires s2 == s.(own := s.own[a := Record], shapes := s2.shapes) && s2.shapes.Keys == s.shapes.Keys
    requires Freed(s2, s3, a, size) && s'.own == s3.own && s'.flm == s3.flm && s'.shapes == s3.shapes
    ensures NothingNew(s, s') && Returned(s, s', root)
  {
    hide State.Ok, Kept, RolesAfterFree, NodeOf, ListsPoppedBut, Steady, CoreOk;
    FlmRole(s) by { CoreParts(s); }
    RootsInUse(s);
    RootsInUse(s3);
    FlmRole(s3) by { CoreParts(s3); }
    OwnGrows(s, s2, s3);
    NoNewRecords(s, s2, s3, a, size);
    DetachedReturned(s, s2, s3, root, a, size);
  }

  lemma {:induction false} RootsInUse(s: State)
    requires s.Ok(NO_KEY)
    ensures forall r :: r in s.shapes ==> r != 0 && r in s.own && s.own[r] == TrieRoot
  {
    hide ArenaOk, RegionsOk, WatchOk, FreeOk, TrieOk, HeadsAgree, SizesOk;
  }

  lemma {:induction false} OwnGrows(s: State, s2: State, s': State)
    requires s.Ok(NO_KEY) && s'.Ok(NO_KEY) && s2.ext == s.ext && Steady(s2, s')
    ensures s.own.Keys <= s'.own.Keys
  {
    hide ArenaOk, RegionsOk, WatchOk, FreeOk, TrieOk, HeadsAgree, NodesBack;
  }

  lemma {:induction false} NoNewRecords(s: State, s2: State, s3: State, a: nat, size: nat)
    requires a in s.own && s2.own == s.own[a := Record] && RolesAfterFree(s2, s3, a, size)
    requires a in s3.own && s3.own[a].Cached? && (s3.flm in s3.own ==> s3.own[s3.flm] == TrieRoot)
    ensures forall x {:trigger s3.own[x]} :: x in s3.own && s3.own[x] == Record ==> x in s.own && s.own[x] == Record
  {
    forall x | x in s3.own && s3.own[x] == Record ensures x in s.own && s.own[x] == Record {
      assert x != a && s2.own[x] == s.own[x];
    }
  }

  lemma {:induction false} DetachedReturned(s: State, s2: State, s3: State, root: nat, a: nat, size: nat)
    requires a in s.own && !s.own[a].Cached? && s.own[a] != TrieRoot && s2.own == s.own[a := Record]
    requires Kept(s2, s3, a) && RolesAfterFree(s2, s3, a, size) && a in s3.own && s3.own[a].Cached?
    requires root in s.own && s.own[root] == TrieRoot &&
      (s.flm != 0 ==> s3.flm == s.flm && s.flm in s.own && s.own[s.flm] == TrieRoot)
    requires s2.flm == s.flm && s3.flm != 0 && s.own.Keys <= s3.own.Keys
    ensures Returned(s, s3, root)
  {
    forall x | x in s.own ensures IsReturned(s, s3, root, x) {
      assert x != a ==> s2.own[x] == s.own[x];
    }
  }

  lemma {:induction false} DroppedRecords(s: State, s2: State, s3: State, a: nat, m: nat, s': State)
    requires a in s.own && s.own[a] != Record && m in s.own && s.own[m] != Record && m in s3.mem
    requires s2.own == s.own[a := Record] && s2.mem == s.mem
    requires forall x :: x in s2.own && s2.own[x] == Record && x != a ==>
      x in s3.own && s3.own[x] == Record && x in s2.mem && x in s3.mem && s3.mem[x] == s2.mem[x]
    requires s'.own == s3.own && m in s'.mem && s'.mem == s3.mem[m := s'.mem[m]]
    ensures RecordsKept(s, s')
  {
    forall x | x in s.own && s.own[x] == Record && x in s.mem
      ensures x in s'.own && s'.own[x] == Record && x in s'.mem && s'.mem[x] == s.mem[x]
    {
      assert x in s2.own && s2.own[x] == Record && x != a;
    }
  }

  lemma {:induction false} DroppedSteady(s: State, s2: State, s3: State, a: nat, size: nat, s': State, root: nat)
    requires s2 == s.(own := s2.own, shapes := s2.shapes) && s2.shapes.Keys == s.shapes.Keys && root in s.shapes
    requires Freed(s2, s3, a, size) && s' == s3.(mem := s'.mem, trace := s'.trace) && s3.trace <= s'.trace
    ensures Steady(s, s') && FlmKept(s, s', root)
  {
    hide ListsPoppedBut, Kept;
  }

  lemma {:induction false} PutSameNodes(mem: Mem, own: map<nat, Role>, mem': Mem, own': map<nat, Role>, root: nat,
          m: nat, j: nat, v: nat, c: nat)
    requires SameNodes(mem, own, mem', own', root) && m in mem && m in own && NodeOf(own, root, m)
    requires |mem[m]| == L2_SIZE + 1 && j < L2_SIZE
    ensures m in mem' && mem'[m] == mem[m] && NodeOf(own', root, m) && m in own'
    ensures SameNodes(PutMiddle(mem, m, j, v, c), own, PutMiddle(mem', m, j, v, c), own', root)
  {
    assert mem'[m] == mem[m];
  }

  ghost function MiddleDetached(s: State, root: nat, i: nat): State
    requires root in s.shapes && i in s.shapes[root].l2
  {
    var sh := s.shapes[root];
    s.(own := s.own[sh.l2[i] := Record], shapes := s.shapes[root := sh.(l2 := sh.l2 - {i})])
  }

  ghost predicate EmptyMiddle(s: State, root: nat, key: nat) {
    MiddleNext(s, root, key) && Slot(s.mem, s.shapes[root].l2[Top(key)], L2_SIZE) == 0
  }

  lemma {:induction false} EmptyMiddleSlots(s: State, root: nat, key: nat)
    requires EmptyMiddle(s, root, key)
    ensures forall i :: 0 <= i < L2_SIZE ==> Slot(s.mem, s.shapes[root].l2[Top(key)], i) == 0
  {
    var words := s.mem[s.shapes[root].l2[Top(key)]];
    assert CountOk(words, L2_SIZE);
    OccupiedZero(words[..L2_SIZE]);
    forall i | 0 <= i < L2_SIZE ensures words[i] == 0 { assert words[..L2_SIZE][i] == 0; }
  }

  lemma {:induction false} MiddleDetachedOk(s: State, root: nat, key: nat)
    requires EmptyMiddle(s, root, key)
    ensures MiddleOk(s.mem, s.own, root, s.shapes[root], Top(key)) && MiddleDetached(s, root, Top(key)).Ok(NO_KEY)
  {
    hide ArenaOk, RegionsOk, SizesOk, TrieOk, Exact, NoneEmptyBut, FreeOk, NodesBack, HeadsAgree, WatchOk;
    var m := s.shapes[root].l2[Top(key)];
    EmptyMiddleSlots(s, root, key);
    MiddleIsNode(s.mem, s.own, root, s.shapes[root], Top(key));
    NotWatchedMiddle(s, m);
    RootRole(s.mem, s.own, root, s.shapes[root]);
    MiddleRolesBack(s.own, s.shapes, root, Top(key));
    DetachedCore(s, root, m, MiddleDetached(s, root, Top(key)));
    DetachedWatch(s, m);
  }

  /** The middle node has been freed and the root's slot cleared. */
  lemma {:induction false} MiddleDropped(s: State, s3: State, root: nat, key: nat, s': State)
    requires EmptyMiddle(s, root, key) && MiddleOk(s.mem, s.own, root, s.shapes[root], Top(key))
    requires MiddleDetached(s, root, Top(key)).Ok(NO_KEY)
    requires Freed(MiddleDetached(s, root, Top(key)), s3, s.shapes[root].l2[Top(key)], L2_BYTES)
    requires root in s3.mem && |s3.mem[root]| == L1_SIZE
    requires s' == s3.(mem := Put(s3.mem, root, Top(key), 0), trace := s'.trace) && s3.trace <= s'.trace
    requires MidWatch(s'.mem, s3.own, s3.watchedRoot, s3.watched, s'.trace)
    ensures s'.Ok(NO_KEY) && s'.Trie(root) && Shrunk(s, s', root)
    ensures s'.List(L2_BYTES) == s.List(L2_BYTES) + [s.shapes[root].l2[Top(key)]]
  {
    hide ArenaOk, RegionsOk, WatchOk, FreeOk, HeadsAgree, NodesBack, SizesOk, Steady, ListsPoppedBut, CoreOk, TrieOk,
      Exact, NoneEmptyBut, MidWatch, NodeOf, Kept;
    var sh := s.shapes[root];
    var i := Top(key);
    var s2 := MiddleDetached(s, root, i);
    EmptyMiddleSlots(s, root, key);
    RootSlot(s.mem, s.own, root, sh, key);
    MiddleIsNode(s.mem, s.own, root, sh, i);
    NotDetached(s, root, sh.l2[i]);
    DropMiddle(s.mem, s.own, root, sh, i);
    FreedFrame(s2, s3, root, sh.l2[i], L2_BYTES);
    PutSameRoot(s.mem, s2.own, s3.mem, s3.own, root, i, 0);
    TrieFrame(Put(s.mem, root, i, 0), s2.own, s'.mem, s3.own, root, s2.shapes[root]);
    NodeStored(s3, root, root, s');
    DroppedRecords(s, s2, s3, sh.l2[i], root, s');
    DroppedNodes(s, s2, s3, root, sh.l2[i], L2_BYTES, s');
    DroppedSteady(s, s2, s3, sh.l2[i], L2_BYTES, s', root);
    forall k: nat ensures s'.Value(root, k) == s.Value(root, k) {
      assert RangeMapSpec.Value(s'.mem, s'.shapes[root], k) ==
        RangeMapSpec.Value(Put(s.mem, root, i, 0), s2.shapes[root], k) ==
        RangeMapSpec.Value(s.mem, sh, k);
    }
  }

  lemma {:induction false} NotDetached(s: State, root: nat, a: nat)
    requires root in s.own && s.own[root] == TrieRoot && a in s.own && s.own[a].Middle?
    ensures a != root && NodeOf(s.own, root, root) && NodeOf(s.own[a := Record], root, root)
  {}

  lemma {:induction false} PutSameRoot(mem: Mem, own: map<nat, Role>, mem': Mem, own': map<nat, Role>, root: nat,
          i: nat, v: nat)
    requires SameNodes(mem, own, mem', own', root) && root in mem && root in own && NodeOf(own, root, root)
    requires |mem[root]| == L1_SIZE && i < L1_SIZE
    ensures root in mem' && mem'[root] == mem[root] && NodeOf(own', root, root) && root in own'
    ensures SameNodes(Put(mem, root, i, v), own, Put(mem', root, i, v), own', root)
  {
    assert mem'[root] == mem[root];
  }

  /** Clearing a slot on the way to a detached node disturbs no watched path: a watched path through
      that slot would lead to that node. */
  lemma {:induction false} ClearedSlotSafe(s: State, a: nat, i: nat, target: nat)
    requires MidWatch(s.mem, s.own, s.watchedRoot, s.watched, s.trace)
    requires a in s.mem && i < |s.mem[a]| && s.mem[a][i] == target
    requires target in s.own && !s.own[target].Middle? && !s.own[target].Leaf?
    requires a in s.own && (s.own[a] == TrieRoot || s.own[a].Middle?)
    ensures AllHold(Put(s.mem, a, i, 0), s.watchedRoot, s.watched)
  {
    forall k | k in s.watched ensures Holds(Put(s.mem, a, i, 0), s.watchedRoot, k, s.watched[k]) {
      assert Holds(s.mem, s.watchedRoot, k, s.watched[k]) && WatchRole(s.own, s.watchedRoot, k, s.watched[k]);
    }
  }

  /** cmalloc_unmap has unmapped the key, and only that; the nodes this empties have gone to their free
      lists. */
  ghost predicate Unmapped(s: State, s': State, root: nat, key: nat) {
    s'.Ok(NO_KEY) && s'.Trie(root) && Steady(s, s') && FlmKept(s, s', root) && RecordsKept(s, s') &&
    NothingNew(s, s') && Returned(s, s', root) && OtherKeys(s, s', root, key) && s'.Value(root, key) == 0
  }

  lemma {:induction false} ShrunkNot(s: State, root: nat)
    requires root in s.shapes && root != s.flm
    ensures Shrunk(s, s, root)
  {}

  lemma {:induction false} PutOrder(m: Mem, a: nat, i: nat, v: nat, j: nat, w: nat)
    requires a in m && i < |m[a]| && j < |m[a]| && i != j
    ensures Put(Put(m, a, i, v), a, j, w) == Put(Put(m, a, j, w), a, i, v)
  {
    assert m[a][i := v][j := w] == m[a][j := w][i := v];
  }

  lemma {:induction false} LeafStays(s: State, root: nat, key: nat)
    requires LeafThere(s, root, key) && root != s.flm &&
      Slot(s.mem, s.shapes[root].l3[(Top(key), Mid(key))], L3_SIZE) > 0
    ensures MiddleNext(s, root, key) && s.Trie(root)
  {
    IndicesBelow(s.mem, s.own, root, s.shapes[root]);
    assert LeafOk(s.mem, s.own, root, s.shapes[root], (Top(key), Mid(key)));
  }

  lemma {:induction false} MiddleStays(s: State, root: nat, key: nat)
    requires MiddleNext(s, root, key) && Slot(s.mem, s.shapes[root].l2[Top(key)], L2_SIZE) > 0
    ensures s.Trie(root)
  {
    IndicesBelow(s.mem, s.own, root, s.shapes[root]);
  }

  lemma {:induction false} UnmappedAfter(s: State, s1: State, s': State, root: nat, key: nat)
    requires s.Ok(NO_KEY) && s.Trie(root) && root != s.flm && key < KEY_LIMIT
    requires Grew(s, s1, root, key, {}) && s1.own == s.own && s1.Value(root, key) == 0 && Shrunk(s1, s', root)
    requires s'.Ok(NO_KEY) && s'.Trie(root)
    ensures Unmapped(s, s', root, key)
  {
    hide ArenaOk, RegionsOk, WatchOk, FreeOk, HeadsAgree, NodesBack, SizesOk, Exact, NoneEmptyBut, NothingNew, Returned;
    SteadyTwice(s, s1, s');
    FlmRole(s);
    GrewRecords(s, s1, root, key, {});
    NothingNewTwice(s, s1, s');
    ReturnedAfter(s, s1, s', root);
    forall a | a in s.own && s.own[a] == Record && a in s.mem
      ensures a in s'.own && s'.own[a] == Record && a in s'.mem && s'.mem[a] == s.mem[a]
    {
      assert a in s1.own && s1.own[a] == Record;
    }
    assert s'.Value(root, key) == s1.Value(root, key);
    forall k: nat | k < KEY_LIMIT && k != key ensures s'.Value(root, k) == s.Value(root, k) {
      assert s'.Value(root, k) == s1.Value(root, k);
    }
  }

  /** Mapping leaves the clients' records alone. */
  lemma {:induction false} GrewRecords(s: State, s': State, root: nat, key: nat, sizes: set<nat>)
    requires s.Core(NO_KEY) && root in s.own && s.own[root] == TrieRoot && Grew(s, s', root, key, sizes)
    ensures RecordsKept(s, s') && NothingNew(s, s')
  {
    hide FreeOk, HeadsAgree, NodesBack, ListsPopped, OtherKeys;
    forall a | a in s.own && s.own[a] == Record && a in s.mem
      ensures a in s'.own && s'.own[a] == Record && a in s'.mem && s'.mem[a] == s.mem[a]
    {
      assert !Private(s.own, s.flm, a) && !NodeOf(s.own, root, a);
      assert s'.own[a] == s.own[a];
    }
  }

  lemma {:induction false} LeafExtent(s: State, root: nat, key: nat)
    requires EmptyLeaf(s, root, key)
    ensures var a := s.shapes[root].l3[(Top(key), Mid(key))]; a in s.ext && s.ext[a] == L3_BYTES
  {
    assert LeafOk(s.mem, s.own, root, s.shapes[root], (Top(key), Mid(key)));
  }

  lemma {:induction false} MiddleExtent(s: State, root: nat, key: nat)
    requires EmptyMiddle(s, root, key)
    ensures var m := s.shapes[root].l2[Top(key)]; m in s.ext && s.ext[m] == L2_BYTES
  {
    assert MiddleOk(s.mem, s.own, root, s.shapes[root], Top(key));
  }

  /** The middle node above an empty leaf counts at least that leaf. */
  lemma {:induction false} MiddleAbove(s: State, root: nat, key: nat, m: nat)
    requires EmptyLeaf(s, root, key) && Top(key) in s.shapes[root].l2 && m == s.shapes[root].l2[Top(key)]
    ensures m in s.mem && |s.mem[m]| == L2_SIZE + 1 && m in s.own && s.own[m] == Middle(root, Top(key))
    ensures s.mem[m][Mid(key)] == s.shapes[root].l3[(Top(key), Mid(key))] && 0 < s.mem[m][L2_SIZE] <= L2_SIZE
    ensures m != s.shapes[root].l3[(Top(key), Mid(key))]
  {
    hide ArenaOk, RegionsOk, WatchOk, FreeOk, HeadsAgree, NodesBack, SizesOk, NoneEmptyBut;
    var sh := s.shapes[root];
    assert LeafOk(s.mem, s.own, root, sh, (Top(key), Mid(key)));
    assert MiddleOk(s.mem, s.own, root, sh, Top(key));
    var words := s.mem[m];
    assert words[Mid(key)] == At(sh.l3, (Top(key), Mid(key)));
    assert CountOk(words, L2_SIZE);
    OccupiedZero(words[..L2_SIZE]);
    assert words[..L2_SIZE][Mid(key)] == words[Mid(key)];
  }

  /** While the detached leaf is freed, its middle node stays as it is. */
  lemma {:induction false} DetachedMiddle(s: State, root: nat, key: nat, s3: State, m: nat)
    requires EmptyLeaf(s, root, key) && Top(key) in s.shapes[root].l2 && m == s.shapes[root].l2[Top(key)]
    requires var s2 := LeafDetached(s, root, key); SameNodes(s2.mem, s2.own, s3.mem, s3.own, root)
    ensures m in s3.mem && m in s.mem && s3.mem[m] == s.mem[m] && m in s3.own && s3.own[m] == Middle(root, Top(key)) &&
      |s.mem[m]| == L2_SIZE + 1
    ensures s.mem[m][Mid(key)] == s.shapes[root].l3[(Top(key), Mid(key))]
    ensures 0 < s.mem[m][L2_SIZE] <= L2_SIZE
  {
    MiddleAbove(s, root, key, m);
    hide EmptyLeaf, LeafThere;
    var s2 := LeafDetached(s, root, key);
    assert m in s2.mem && NodeOf(s2.own, root, m);
    assert s3.mem[m] == s2.mem[m];
  }

  lemma {:induction false} DetachedRoot(s: State, root: nat, key: nat, s3: State)
    requires EmptyMiddle(s, root, key) && root in s.own && s.own[root] == TrieRoot &&
      s.shapes[root].l2[Top(key)] != root
    requires var s2 := MiddleDetached(s, root, Top(key)); SameNodes(s2.mem, s2.own, s3.mem, s3.own, root)
    ensures root in s3.mem && root in s.mem && s3.mem[root] == s.mem[root] && root in s3.own && s3.own[root] == TrieRoot
    ensures |s.mem[root]| == L1_SIZE && s.mem[root][Top(key)] == s.shapes[root].l2[Top(key)]
  {
    assert s3.mem[root] == MiddleDetached(s, root, Top(key)).mem[root];
    assert s.mem[root][Top(key)] == At(s.shapes[root].l2, Top(key));
  }

  // ---- ranges of keys in a client's trie ----

  /** Between operations of a client on its trie `root`. */
  ghost predicate ClientOk(s: State, root: nat) {
    s.Ok(NO_KEY) && s.Trie(root) && root != s.flm
  }

  /** The keys from `from` up to `to` have the value v, the others the values they had. */
  ghost predicate RangeSet(s: State, s': State, root: nat, from: nat, to: nat, v: nat) {
    root in s.shapes && root in s'.shapes &&
    forall k: nat {:trigger s'.Value(root, k)} :: k < KEY_LIMIT ==>
      s'.Value(root, k) == if from <= k < to then v else s.Value(root, k)
  }

  ghost predicate RangeStep(s: State, s': State, root: nat, from: nat, to: nat, v: nat) {
    ClientOk(s', root) && Steady(s, s') && (s.flm != 0 ==> s'.flm == s.flm) && RecordsKept(s, s') &&
    NothingNew(s, s') &&
    RangeSet(s, s', root, from, to, v)
  }

  lemma {:induction false} RangeNone(s: State, root: nat, from: nat, v: nat)
    requires ClientOk(s, root)
    ensures RangeStep(s, s, root, from, from, v)
  {}

  lemma {:induction false} RangeMore(s: State, s1: State, s': State, root: nat, from: nat, i: nat, v: nat)
    requires RangeStep(s, s1, root, from, i, v) && from <= i < KEY_LIMIT && root != s.flm
    requires s'.Ok(NO_KEY) && s'.Trie(root) && Steady(s1, s') && FlmKept(s1, s', root) && RecordsKept(s1, s') &&
      NothingNew(s1, s')
    requires OtherKeys(s1, s', root, i) && s'.Value(root, i) == v
    ensures RangeStep(s, s', root, from, i + 1, v)
  {
    hide ArenaOk, RegionsOk, WatchOk, CoreOk, SizesOk, TrieOk, Counted, Steady, NothingNew;
    SteadyTwice(s, s1, s');
    NothingNewTwice(s, s1, s');
    forall a | a in s.own && s.own[a] == Record && a in s.mem
      ensures a in s'.own && s'.own[a] == Record && a in s'.mem && s'.mem[a] == s.mem[a]
    {
      assert a in s1.own && s1.own[a] == Record;
    }
    forall k: nat | k < KEY_LIMIT ensures s'.Value(root, k) == if from <= k < i + 1 then v else s.Value(root, k) {
      if k != i { assert s'.Value(root, k) == s1.Value(root, k); }
    }
  }

  /** One call of cmalloc_map on a client's trie. */
  lemma {:induction false} MappedRange(s: State, s1: State, s': State, root: nat, from: nat, i: nat, v: nat)
    requires RangeStep(s, s1, root, from, i, v) && from <= i < KEY_LIMIT && root != s.flm
    requires Mapped(s1, s', root, i, v)
    ensures RangeStep(s, s', root, from, i + 1, v)
  {
    hide ArenaOk, RegionsOk, WatchOk, FreeOk, HeadsAgree, NodesBack, SizesOk, Counted, Steady, ListsPopped, OtherKeys,
      RecordsKept, NothingNew, RangeSet;
    FlmRole(s1);
    GrewRecords(s1, s', root, i, {L2_BYTES, L3_BYTES});
    RangeMore(s, s1, s', root, from, i, v);
  }

  // ---- watching keys ----

  /** A mapped key's path through its trie. */
  ghost function PathOf(sh: Shape, mem: Mem, key: nat): Path {
    Path(At(sh.l2, Top(key)), At(sh.l3, (Top(key), Mid(key))), RangeMapSpec.Value(mem, sh, key))
  }

  lemma {:induction false} PathHolds(mem: Mem, own: map<nat, Role>, root: nat, sh: Shape, key: nat)
    requires TrieOk(mem, own, root, sh) && key < KEY_LIMIT && RangeMapSpec.Value(mem, sh, key) != 0
    ensures Holds(mem, root, key, PathOf(sh, mem, key)) && WatchRole(own, root, key, PathOf(sh, mem, key))
  {
    assert LeafOk(mem, own, root, sh, (Top(key), Mid(key)));
    assert MiddleOk(mem, own, root, sh, Top(key));
    assert mem[root][Top(key)] == At(sh.l2, Top(key));
    assert mem[sh.l2[Top(key)]][Mid(key)] == At(sh.l3, (Top(key), Mid(key)));
  }

  ghost function WatchFrom(s: State, root: nat, keys: set<nat>): State
    requires root in s.shapes
  {
    s.(watchedRoot := root, watched := map k | k in keys :: PathOf(s.shapes[root], s.mem, k), trace := [s.mem])
  }

  /** Every mapped key of a client's trie may be watched. */
  lemma {:induction false} WatchStarted(s: State, root: nat, keys: set<nat>)
    requires ClientOk(s, root) && forall k :: k in keys ==> 0 <= k < KEY_LIMIT && s.Value(root, k) != 0
    ensures ClientOk(WatchFrom(s, root, keys), root) && WatchFrom(s, root, keys).watched.Keys == keys
    ensures forall k :: k in keys ==> WatchFrom(s, root, keys).watched[k].value == s.Value(root, k)
  {
    hide ArenaOk, RegionsOk, CoreOk, SizesOk, Counted, TrieOk;
    var watched := WatchFrom(s, root, keys).watched;
    RootRole(s.mem, s.own, root, s.shapes[root]);
    forall k | k in watched ensures Holds(s.mem, root, k, watched[k]) && WatchRole(s.own, root, k, watched[k]) {
      PathHolds(s.mem, s.own, root, s.shapes[root], k);
    }
  }

  lemma {:induction false} RootNotLeaf(s: State, root: nat, key: nat)
    requires LeafThere(s, root, key)
    ensures s.shapes[root].l3[(Top(key), Mid(key))] != root
  {
    assert LeafOk(s.mem, s.own, root, s.shapes[root], (Top(key), Mid(key)));
  }

  // ---- what a client sees ----

  /** The trie maps exactly the keys of the table, to its values. */
  ghost predicate Holding(s: State, root: nat, table: map<nat, nat>) {
    root in s.shapes && forall k: nat {:trigger s.Value(root, k)} :: k < KEY_LIMIT ==> s.Value(root, k) == At(table, k)
  }

  /** r is a record of that size. */
  ghost predicate RecordOk(s: State, r: nat, size: nat) {
    r in s.own && s.own[r] == Record && r in s.ext && s.ext[r] == size && r in s.mem && r != 0
  }

  /** A new record: the client's trie and its other records stay. */
  lemma {:induction false} ClientAlloc(s: State, s1: State, root: nat, size: nat, r: nat)
    requires ClientOk(s, root) && Handed(s, s1, size, r)
    ensures ClientOk(s1, root) && forall k: nat :: s1.Value(root, k) == s.Value(root, k)
  {
    hide ArenaOk, RegionsOk, CoreOk, SizesOk, TrieOk, Counted, WatchOk, Untouched, Steady;
    TrieAfterAlloc(s, s1, root, size, r);
    TrieFrame(s.mem, s.own, s1.mem, s1.own, root, s.shapes[root]);
  }

  lemma {:induction false} AllocRecords(s: State, s1: State, size: nat, r: nat)
    requires s.Ok(NO_KEY) && Handed(s, s1, size, r)
    ensures RecordsKept(s, s1) && RecordOk(s1, r, size) && (r in s.own ==> s.own[r] != Record)
  {
    hide ArenaOk, RegionsOk, WatchOk, SizesOk, TrieOk, HeadsAgree, FreeOk, Steady;
    FlmRole(s);
    NodeReady(s1, size, r);
    forall a | a in s.own && s.own[a] == Record && a in s.mem
      ensures a in s1.own && s1.own[a] == Record && a in s1.mem && s1.mem[a] == s.mem[a]
    {
      assert !Private(s.own, s.flm, a);
    }
  }

  lemma {:induction false} RecordStays(s: State, s': State, a: nat, size: nat)
    requires RecordsKept(s, s') && Steady(s, s') && RecordOk(s, a, size)
    ensures RecordOk(s', a, size)
  {
    assert a in s'.own;
  }

  /** Mapping or unmapping a region that is not a metadata chunk does not concern the arena. */
  lemma {:induction false} OtherRegion(s: State, mapped': map<nat, nat>, root: nat)
    requires s.Ok(NO_KEY) && RegionsOk(mapped')
    requires forall c :: c in s.chunks ==> c in s.mapped && c in mapped' && mapped'[c] == s.mapped[c]
    ensures s.(mapped := mapped').Ok(NO_KEY)
    ensures ClientOk(s, root) ==> ClientOk(s.(mapped := mapped'), root)
    ensures forall k: nat :: root in s.shapes ==> s.(mapped := mapped').Value(root, k) == s.Value(root, k)
  {
    hide CoreOk, WatchOk, SizesOk, TrieOk, Counted;
    var s' := s.(mapped := mapped');
    forall a | a in s.ext ensures InChunk(s'.ext, s'.home, s'.chunks, s'.arena, s'.cur, a) {
      assert InChunk(s.ext, s.home, s.chunks, s.arena, s.cur, a);
    }
    forall a, b | a in s.ext && b in s.ext && a != b ensures Apart(a, s'.ext[a], b, s'.ext[b]) {
      assert Apart(a, s.ext[a], b, s.ext[b]);
    }
  }

  lemma {:induction false} ChunksMapped(s: State)
    requires s.Ok(NO_KEY)
    ensures forall c :: c in s.chunks ==> c in s.mapped
    ensures RegionsOk(s.mapped)
  {}

  // counts are of type size_t
  const SIZE_LIMIT: nat := 0x1_0000_0000_0000_0000

  lemma {:induction false} MiddleCountBound(s: State, root: nat, i: nat)
    requires root in s.shapes && Exact(s.mem, s.shapes[root]) && i in s.shapes[root].l2
    ensures Slot(s.mem, s.shapes[root].l2[i], L2_SIZE) <= L2_SIZE
  {
    OccupiedZero(s.mem[s.shapes[root].l2[i]][..L2_SIZE]);
  }

  lemma {:induction false} LeafCountBound(s: State, root: nat, key: nat)
    requires LeafThere(s, root, key) && root != s.flm
    ensures Slot(s.mem, s.shapes[root].l3[(Top(key), Mid(key))], L3_SIZE) <= L3_SIZE
    ensures Slot(s.mem, s.shapes[root].l3[(Top(key), Mid(key))], Low(key)) != 0 ==>
      Slot(s.mem, s.shapes[root].l3[(Top(key), Mid(key))], L3_SIZE) > 0
  {
    var words := s.mem[s.shapes[root].l3[(Top(key), Mid(key))]];
    assert CountOk(words, L3_SIZE);
    OccupiedZero(words[..L3_SIZE]);
    assert words[..L3_SIZE][Low(key)] == words[Low(key)];
  }

  function AlignUp(x: nat): (y: nat)
    ensures y % 16 == 0 && x <= y < x + 16
  {
    (x + 15) / 16 * 16
  }

  lemma {:induction false} TimesMod16(n: nat, d: nat)
    requires d % 16 == 0
    ensures Times(n, d) % 16 == 0
  {
    if n > 0 { TimesMod16(n - 1, d); }
  }
}
