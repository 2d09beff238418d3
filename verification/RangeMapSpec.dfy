/** Vocabulary of src/range_map.c and src/metadata.c: word-addressed metadata memory, the shape of
    the three-level tries that live in it, and the intrusive free lists. */
module RangeMapSpec {
  const L1_SIZE: nat := 4096
  const L2_SIZE: nat := 4096
  const L3_SIZE: nat := 2048

  // sizeof the node structs: pointer slots, then a count in all but the root
  const L1_BYTES: nat := 32768
  const L2_BYTES: nat := 32776
  const L3_BYTES: nat := 16392

  // keys have 12 + 12 + 11 bits
  const KEY_LIMIT: nat := 0x8_0000_0000
  const NO_KEY: nat := KEY_LIMIT

  const WORD: nat := 8
  const ADDRESS_LIMIT: nat := 0x8000_0000_0000
  const META_CHUNK_SIZE: nat := 0x40_0000
  // sizeof(meta_chunk_t) rounded up to 16
  const META_HEADER: nat := 32

  /** Metadata objects by address, each a sequence of 64-bit words. 0 is NULL. */
  type Mem = map<nat, seq<nat>>

  /** What a metadata object is currently used for. */
  datatype Role =
    | Record                                   // handed out to a client
    | TrieRoot
    | Middle(root: nat, i: nat)                // slot i of the root
    | Leaf(root: nat, i: nat, j: nat)          // slot j of middle node i
    | Cached(size: nat, pos: nat)              // on the free list of that size, pos steps above its end

  /** The nodes of one trie. */
  datatype Shape = Shape(l2: map<nat, nat>, l3: map<(nat, nat), nat>)

  /** Where a watched key is stored and what it maps to. */
  datatype Path = Path(mid: nat, leaf: nat, value: nat)

  /** Memory m after the store of v to word i of the object at a. */
  function Put(m: Mem, a: nat, i: nat, v: nat): Mem
    requires a in m && i < |m[a]|
  {
    var words: seq<nat> := m[a][i := v];
    m[a := words]
  }

  lemma {:induction false} PutSame(m: Mem, a: nat, i: nat)
    requires a in m && i < |m[a]|
    ensures Put(m, a, i, m[a][i]) == m
  {
    assert m[a][i := m[a][i]] == m[a];
  }

  function At<K(==)>(m: map<K, nat>, k: K): nat {
    if k in m then m[k] else 0
  }

  function Top(key: nat): nat { (key / 0x80_0000) % L1_SIZE }
  function Mid(key: nat): nat { (key / L3_SIZE) % L2_SIZE }
  function Low(key: nat): nat { key % L3_SIZE }

  /** Below 2^35 the three indices determine the key: masking loses nothing. */
  lemma {:induction false} SplitInjective(k: nat, k': nat)
    requires k < KEY_LIMIT && k' < KEY_LIMIT
    requires Top(k) == Top(k') && Mid(k) == Mid(k') && Low(k) == Low(k')
    ensures k == k'
  {
    SplitJoin(k);
    SplitJoin(k');
  }

  lemma {:induction false} SplitJoin(k: nat)
    requires k < KEY_LIMIT
    ensures k == Top(k) * 0x80_0000 + Mid(k) * L3_SIZE + Low(k)
  {
    assert k / 0x80_0000 < L1_SIZE;
    assert k / L3_SIZE / L2_SIZE == k / 0x80_0000;
  }

  /** The trie's nodes are where the slots say, and are used for nothing else. */
  ghost predicate TrieOk(mem: Mem, own: map<nat, Role>, r: nat, sh: Shape) {
    r in mem && r in own && own[r] == TrieRoot && |mem[r]| == L1_SIZE &&
    (forall i {:trigger mem[r][i]} :: 0 <= i < L1_SIZE ==> mem[r][i] == At(sh.l2, i)) &&
    (forall i {:trigger MiddleOk(mem, own, r, sh, i)} :: i in sh.l2 ==> MiddleOk(mem, own, r, sh, i)) &&
    (forall p {:trigger LeafOk(mem, own, r, sh, p)} :: p in sh.l3 ==> LeafOk(mem, own, r, sh, p))
  }

  ghost predicate MiddleOk(mem: Mem, own: map<nat, Role>, r: nat, sh: Shape, i: nat)
    requires i in sh.l2
  {
    var a := sh.l2[i];
    i < L1_SIZE && a != 0 && a in mem && a in own && own[a] == Middle(r, i) && |mem[a]| == L2_SIZE + 1 &&
    forall j {:trigger mem[a][j]} :: 0 <= j < L2_SIZE ==> mem[a][j] == At(sh.l3, (i, j))
  }

  ghost predicate LeafOk(mem: Mem, own: map<nat, Role>, r: nat, sh: Shape, p: (nat, nat))
    requires p in sh.l3
  {
    var a := sh.l3[p];
    p.0 in sh.l2 && p.1 < L2_SIZE && a != 0 && a in mem && a in own && own[a] == Leaf(r, p.0, p.1) &&
    |mem[a]| == L3_SIZE + 1
  }

  ghost predicate HasPath(sh: Shape, key: nat) {
    (Top(key), Mid(key)) in sh.l3
  }

  /** What the trie maps a key to, 0 if nothing. */
  ghost function Value(mem: Mem, sh: Shape, key: nat): nat {
    if HasPath(sh, key) then Slot(mem, sh.l3[(Top(key), Mid(key))], Low(key)) else 0
  }

  ghost function Slot(mem: Mem, a: nat, i: nat): nat {
    if a in mem && i < |mem[a]| then mem[a][i] else 0
  }

  /** The object at a is a node of the trie with root r. */
  ghost predicate NodeOf(own: map<nat, Role>, r: nat, a: nat) {
    a == r || (a in own && ((own[a].Middle? && own[a].root == r) || (own[a].Leaf? && own[a].root == r)))
  }

  /** The object at a is on a free list or a node of the free-list map. */
  ghost predicate Private(own: map<nat, Role>, flm: nat, a: nat) {
    (flm != 0 && NodeOf(own, flm, a)) || (a in own && own[a].Cached?)
  }

  /** The objects in `m` satisfying NodeOf are the same in `m'`. */
  ghost predicate SameNodes(mem: Mem, own: map<nat, Role>, mem': Mem, own': map<nat, Role>, r: nat) {
    forall a {:trigger mem[a]} {:trigger mem'[a]} {:trigger own[a]} :: a in mem && NodeOf(own, r, a) ==>
      a in mem' && mem'[a] == mem[a] && a in own' && a in own && own'[a] == own[a]
  }

  /** A trie whose nodes are untouched is unchanged. */
  lemma {:induction false} TrieFrame(mem: Mem, own: map<nat, Role>, mem': Mem, own': map<nat, Role>, r: nat, sh: Shape)
    requires TrieOk(mem, own, r, sh) && SameNodes(mem, own, mem', own', r)
    ensures TrieOk(mem', own', r, sh)
    ensures forall k: nat :: Value(mem', sh, k) == Value(mem, sh, k)
    ensures Counted(mem, sh) ==> Counted(mem', sh)
  {
    forall i | i in sh.l2
      ensures MiddleOk(mem', own', r, sh, i) && sh.l2[i] in mem && sh.l2[i] in mem' && mem'[sh.l2[i]] == mem[sh.l2[i]]
    {
      assert MiddleOk(mem, own, r, sh, i);
    }
    forall p | p in sh.l3
      ensures LeafOk(mem', own', r, sh, p) && sh.l3[p] in mem && sh.l3[p] in mem' && mem'[sh.l3[p]] == mem[sh.l3[p]]
    {
      assert LeafOk(mem, own, r, sh, p);
    }
  }

  // ---- occupancy counts ----

  /** The number of non-NULL slots. */
  ghost function Occupied(s: seq<nat>): nat {
    if s == [] then 0 else Occupied(s[..|s| - 1]) + if s[|s| - 1] != 0 then 1 else 0
  }

  lemma {:induction false} OccupiedUpdate(s: seq<nat>, i: nat, v: nat)
    requires i < |s|
    ensures Occupied(s[i := v]) == Occupied(s) - (if s[i] != 0 then 1 else 0) + (if v != 0 then 1 else 0)
  {
    var n := |s| - 1;
    if i == n {
      assert s[i := v][..n] == s[..n];
    } else {
      assert s[i := v][..n] == s[..n][i := v];
      OccupiedUpdate(s[..n], i, v);
    }
  }

  lemma {:induction false} OccupiedZero(s: seq<nat>)
    ensures Occupied(s) <= |s|
    ensures Occupied(s) == 0 <==> forall i :: 0 <= i < |s| ==> s[i] == 0
  {
    if s != [] {
      OccupiedZero(s[..|s| - 1]);
      if Occupied(s) == 0 {
        forall i | 0 <= i < |s| ensures s[i] == 0 {
          if i < |s| - 1 { assert s[..|s| - 1][i] == 0; }
        }
      }
    }
  }

  /** A node's last word counts its occupied slots. */
  ghost predicate CountOk(words: seq<nat>, slots: nat) {
    |words| == slots + 1 && words[slots] == Occupied(words[..slots])
  }

  /** Every middle node and leaf of the trie counts its occupied slots. */
  ghost predicate Exact(mem: Mem, sh: Shape) {
    (forall i {:trigger sh.l2[i]} :: i in sh.l2 ==> sh.l2[i] in mem && CountOk(mem[sh.l2[i]], L2_SIZE)) &&
    (forall p {:trigger sh.l3[p]} :: p in sh.l3 ==> sh.l3[p] in mem && CountOk(mem[sh.l3[p]], L3_SIZE))
  }

  /** No node is empty, except perhaps middle node i and leaf p. */
  ghost predicate NoneEmptyBut(mem: Mem, sh: Shape, i: nat, p: (nat, nat)) {
    (forall i' :: i' in sh.l2 && i' != i ==> Slot(mem, sh.l2[i'], L2_SIZE) > 0) &&
    (forall p' :: p' in sh.l3 && p' != p ==> Slot(mem, sh.l3[p'], L3_SIZE) > 0)
  }

  /** Counts are exact and there is no empty node. */
  ghost predicate Counted(mem: Mem, sh: Shape) {
    Exact(mem, sh) && NoneEmptyBut(mem, sh, L1_SIZE, (L1_SIZE, 0))
  }

  // ---- what the stores of cmalloc_map and cmalloc_unmap do to a trie ----

  function Zeros(n: nat): (s: seq<nat>)
    ensures |s| == n && forall i :: 0 <= i < n ==> s[i] == 0
  {
    seq(n, _ => 0)
  }

  /** A new zeroed middle node n in slot i of the root. */
  lemma {:induction false} GrowMiddle(mem: Mem, own: map<nat, Role>, r: nat, sh: Shape, i: nat, n: nat)
    requires TrieOk(mem, own, r, sh) && i < L1_SIZE && i !in sh.l2
    requires n != 0 && n in mem && n in own && own[n] == Record && |mem[n]| == L2_SIZE + 1
    ensures
      var mem' := Put(mem, r, i, n)[n := Zeros(L2_SIZE + 1)];
      var own' := own[n := Middle(r, i)];
      var sh' := sh.(l2 := sh.l2[i := n]);
      TrieOk(mem', own', r, sh') && forall k: nat :: Value(mem', sh', k) == Value(mem, sh, k)
  {
    var mem' := Put(mem, r, i, n)[n := Zeros(L2_SIZE + 1)];
    var own' := own[n := Middle(r, i)];
    var sh' := sh.(l2 := sh.l2[i := n]);
    forall i' | i' in sh'.l2
      ensures MiddleOk(mem', own', r, sh', i') && (i' != i ==> sh.l2[i'] in mem && mem'[sh.l2[i']] == mem[sh.l2[i']])
    {
      if i' != i {
        assert MiddleOk(mem, own, r, sh, i');
      } else {
        forall j: nat | j < L2_SIZE ensures (i, j) !in sh.l3 {
          assert (i, j) in sh.l3 ==> LeafOk(mem, own, r, sh, (i, j));
        }
      }
    }
    forall p | p in sh.l3 ensures LeafOk(mem', own', r, sh', p) && sh.l3[p] in mem && mem'[sh.l3[p]] == mem[sh.l3[p]] {
      assert LeafOk(mem, own, r, sh, p);
    }
  }

  lemma {:induction false} GrowMiddleCounts(mem: Mem, own: map<nat, Role>, r: nat, sh: Shape, i: nat, n: nat)
    requires TrieOk(mem, own, r, sh) && i < L1_SIZE && i !in sh.l2
    requires n in mem && n in own && own[n] == Record && Counted(mem, sh)
    ensures
      var mem' := Put(mem, r, i, n)[n := Zeros(L2_SIZE + 1)];
      var sh' := sh.(l2 := sh.l2[i := n]);
      Exact(mem', sh') && NoneEmptyBut(mem', sh', i, (L1_SIZE, 0))
  {
    var mem' := Put(mem, r, i, n)[n := Zeros(L2_SIZE + 1)];
    OccupiedZero(Zeros(L2_SIZE + 1)[..L2_SIZE]);
    forall i' | i' in sh.l2 ensures sh.l2[i'] in mem && mem'[sh.l2[i']] == mem[sh.l2[i']] && i' < L1_SIZE {
      assert MiddleOk(mem, own, r, sh, i');
    }
    forall p | p in sh.l3 ensures sh.l3[p] in mem && mem'[sh.l3[p]] == mem[sh.l3[p]] {
      assert LeafOk(mem, own, r, sh, p);
    }
  }

  /** A new zeroed leaf n in slot p.1 of middle node p.0, whose count becomes c. */
  function PutLeaf(mem: Mem, m: nat, j: nat, n: nat, c: nat): Mem
    requires m in mem && |mem[m]| == L2_SIZE + 1 && j < L2_SIZE && m != n
  {
    Put(Put(mem, m, j, n)[n := Zeros(L3_SIZE + 1)], m, L2_SIZE, c)
  }

  lemma {:induction false} GrowLeaf(mem: Mem, own: map<nat, Role>, r: nat, sh: Shape, p: (nat, nat), n: nat, c: nat)
    requires TrieOk(mem, own, r, sh) && p.0 in sh.l2 && p.1 < L2_SIZE && p !in sh.l3
    requires n != 0 && n in mem && n in own && own[n] == Record && |mem[n]| == L3_SIZE + 1
    ensures MiddleOk(mem, own, r, sh, p.0)
    ensures
      var mem' := PutLeaf(mem, sh.l2[p.0], p.1, n, c);
      var sh' := sh.(l3 := sh.l3[p := n]);
      TrieOk(mem', own[n := Leaf(r, p.0, p.1)], r, sh') &&
      (forall k: nat :: Value(mem', sh', k) == Value(mem, sh, k))
  {
    assert MiddleOk(mem, own, r, sh, p.0);
    var m := sh.l2[p.0];
    var mem' := PutLeaf(mem, m, p.1, n, c);
    var own' := own[n := Leaf(r, p.0, p.1)];
    var sh' := sh.(l3 := sh.l3[p := n]);
    forall i | i in sh.l2 ensures MiddleOk(mem', own', r, sh', i) {
      assert MiddleOk(mem, own, r, sh, i);
    }
    forall q | q in sh'.l3
      ensures LeafOk(mem', own', r, sh', q) && (q != p ==> sh.l3[q] in mem && mem'[sh.l3[q]] == mem[sh.l3[q]])
    {
      if q != p { assert LeafOk(mem, own, r, sh, q); }
    }
  }

  lemma {:induction false} GrowLeafCounts(mem: Mem, own: map<nat, Role>, r: nat, sh: Shape, p: (nat, nat), n: nat,
          c: nat)
    requires TrieOk(mem, own, r, sh) && p.0 in sh.l2 && p.1 < L2_SIZE && p !in sh.l3
    requires n != 0 && n in mem && n in own && own[n] == Record && |mem[n]| == L3_SIZE + 1
    requires Exact(mem, sh) && NoneEmptyBut(mem, sh, p.0, (L1_SIZE, 0)) && c == Slot(mem, sh.l2[p.0], L2_SIZE) + 1
    ensures MiddleOk(mem, own, r, sh, p.0)
    ensures
      var mem' := PutLeaf(mem, sh.l2[p.0], p.1, n, c);
      var sh' := sh.(l3 := sh.l3[p := n]);
      Exact(mem', sh') && NoneEmptyBut(mem', sh', L1_SIZE, p)
  {
    assert MiddleOk(mem, own, r, sh, p.0);
    var m := sh.l2[p.0];
    var mem' := PutLeaf(mem, m, p.1, n, c);
    var sh' := sh.(l3 := sh.l3[p := n]);
    OccupiedZero(Zeros(L3_SIZE + 1)[..L3_SIZE]);
    OccupiedUpdate(mem[m][..L2_SIZE], p.1, n);
    assert mem'[m][..L2_SIZE] == mem[m][..L2_SIZE][p.1 := n];
    LeafElsewhere(mem, own, r, sh, p, n, c);
  }

  /** The other nodes stay as they are. */
  lemma {:induction false} LeafElsewhere(mem: Mem, own: map<nat, Role>, r: nat, sh: Shape, p: (nat, nat), n: nat,
          c: nat)
    requires TrieOk(mem, own, r, sh) && p.0 in sh.l2 && MiddleOk(mem, own, r, sh, p.0) && p.1 < L2_SIZE
    requires n in mem && n in own && own[n] == Record
    ensures var mem' := PutLeaf(mem, sh.l2[p.0], p.1, n, c);
      (forall i :: i in sh.l2 && i != p.0 ==> sh.l2[i] in mem && mem'[sh.l2[i]] == mem[sh.l2[i]]) &&
      (forall q :: q in sh.l3 ==> sh.l3[q] in mem && mem'[sh.l3[q]] == mem[sh.l3[q]] && q.0 < L1_SIZE)
  {
    var mem' := PutLeaf(mem, sh.l2[p.0], p.1, n, c);
    forall i | i in sh.l2 && i != p.0 ensures sh.l2[i] in mem && mem'[sh.l2[i]] == mem[sh.l2[i]] {
      assert MiddleOk(mem, own, r, sh, i);
    }
    forall q | q in sh.l3 ensures sh.l3[q] in mem && mem'[sh.l3[q]] == mem[sh.l3[q]] && q.0 < L1_SIZE {
      assert LeafOk(mem, own, r, sh, q);
      assert MiddleOk(mem, own, r, sh, q.0);
    }
  }

  /** A store to the slot of a key whose leaf exists, with the count c that goes with it. */
  function PutSlot(mem: Mem, a: nat, key: nat, v: nat, c: nat): Mem
    requires a in mem && |mem[a]| == L3_SIZE + 1
  {
    Put(Put(mem, a, L3_SIZE, c), a, Low(key), v)
  }

  lemma {:induction false} WriteSlot(mem: Mem, own: map<nat, Role>, r: nat, sh: Shape, key: nat, v: nat, c: nat)
    requires TrieOk(mem, own, r, sh) && HasPath(sh, key) && key < KEY_LIMIT
    ensures LeafOk(mem, own, r, sh, (Top(key), Mid(key)))
    ensures
      var mem' := PutSlot(mem, sh.l3[(Top(key), Mid(key))], key, v, c);
      TrieOk(mem', own, r, sh) && Value(mem', sh, key) == v &&
      (forall k: nat :: k < KEY_LIMIT && k != key ==> Value(mem', sh, k) == Value(mem, sh, k))
  {
    var p := (Top(key), Mid(key));
    assert LeafOk(mem, own, r, sh, p);
    var a := sh.l3[p];
    var mem' := PutSlot(mem, a, key, v, c);
    forall i | i in sh.l2 ensures MiddleOk(mem', own, r, sh, i) {
      assert MiddleOk(mem, own, r, sh, i);
    }
    forall q | q in sh.l3
      ensures LeafOk(mem', own, r, sh, q) && sh.l3[q] in mem && (q != p ==> mem'[sh.l3[q]] == mem[sh.l3[q]])
    {
      assert LeafOk(mem, own, r, sh, q);
    }
    forall k: nat | k < KEY_LIMIT && k != key ensures Value(mem', sh, k) == Value(mem, sh, k) {
      if (Top(k), Mid(k)) == p && Low(k) == Low(key) { SplitInjective(k, key); }
    }
  }

  lemma {:induction false} WriteSlotCounts(mem: Mem, own: map<nat, Role>, r: nat, sh: Shape, key: nat, v: nat, c: nat)
    requires TrieOk(mem, own, r, sh) && HasPath(sh, key) && key < KEY_LIMIT
    requires Exact(mem, sh) && NoneEmptyBut(mem, sh, L1_SIZE, (Top(key), Mid(key)))
    requires var a := sh.l3[(Top(key), Mid(key))];
      c + (if Slot(mem, a, Low(key)) != 0 then 1 else 0) == Slot(mem, a, L3_SIZE) + (if v != 0 then 1 else 0)
    ensures LeafOk(mem, own, r, sh, (Top(key), Mid(key)))
    ensures
      var mem' := PutSlot(mem, sh.l3[(Top(key), Mid(key))], key, v, c);
      Exact(mem', sh) && NoneEmptyBut(mem', sh, L1_SIZE, (Top(key), Mid(key))) &&
      (c > 0 ==> Counted(mem', sh))
  {
    var p := (Top(key), Mid(key));
    assert LeafOk(mem, own, r, sh, p);
    var a := sh.l3[p];
    var mem' := PutSlot(mem, a, key, v, c);
    OccupiedUpdate(mem[a][..L3_SIZE], Low(key), v);
    assert mem'[a][..L3_SIZE] == mem[a][..L3_SIZE][Low(key) := v];
    forall i | i in sh.l2 ensures sh.l2[i] in mem && mem'[sh.l2[i]] == mem[sh.l2[i]] {
      assert MiddleOk(mem, own, r, sh, i);
    }
    forall q | q in sh.l3 ensures sh.l3[q] in mem && (q != p ==> mem'[sh.l3[q]] == mem[sh.l3[q]]) {
      assert LeafOk(mem, own, r, sh, q);
    }
  }

  /** Stores to slot j of a middle node and to its count. */
  function PutMiddle(mem: Mem, m: nat, j: nat, v: nat, c: nat): Mem
    requires m in mem && |mem[m]| == L2_SIZE + 1 && j < L2_SIZE
  {
    Put(Put(mem, m, j, v), m, L2_SIZE, c)
  }

  /** Taking the key's leaf, all of whose slots are NULL, out of the trie. */
  lemma {:induction false} DropLeaf(mem: Mem, own: map<nat, Role>, r: nat, sh: Shape, key: nat, c: nat)
    requires TrieOk(mem, own, r, sh) && HasPath(sh, key) && Top(key) in sh.l2 && MiddleOk(mem, own, r, sh, Top(key))
    requires forall i :: 0 <= i < L3_SIZE ==> Slot(mem, sh.l3[(Top(key), Mid(key))], i) == 0
    ensures
      var p := (Top(key), Mid(key));
      var mem' := PutMiddle(mem, sh.l2[Top(key)], Mid(key), 0, c);
      var sh' := sh.(l3 := sh.l3 - {p});
      TrieOk(mem', own[sh.l3[p] := Record], r, sh') &&
      (forall k: nat :: Value(mem', sh', k) == Value(mem, sh, k))
  {
    var p := (Top(key), Mid(key));
    var mem' := PutMiddle(mem, sh.l2[Top(key)], Mid(key), 0, c);
    var own' := own[sh.l3[p] := Record];
    var sh' := sh.(l3 := sh.l3 - {p});
    assert LeafOk(mem, own, r, sh, p);
    forall i | i in sh.l2 ensures MiddleOk(mem', own', r, sh', i) {
      assert MiddleOk(mem, own, r, sh, i);
    }
    forall q | q in sh'.l3 ensures LeafOk(mem', own', r, sh', q) && sh.l3[q] in mem && mem'[sh.l3[q]] == mem[sh.l3[q]] {
      assert LeafOk(mem, own, r, sh, q);
    }
  }

  lemma {:induction false} DropLeafCounts(mem: Mem, own: map<nat, Role>, r: nat, sh: Shape, key: nat, c: nat)
    requires TrieOk(mem, own, r, sh) && HasPath(sh, key) && Top(key) in sh.l2 && MiddleOk(mem, own, r, sh, Top(key))
    requires Exact(mem, sh) && NoneEmptyBut(mem, sh, L1_SIZE, (Top(key), Mid(key)))
    requires c + 1 == Slot(mem, sh.l2[Top(key)], L2_SIZE)
    ensures
      var mem' := PutMiddle(mem, sh.l2[Top(key)], Mid(key), 0, c);
      var sh' := sh.(l3 := sh.l3 - {(Top(key), Mid(key))});
      Exact(mem', sh') && NoneEmptyBut(mem', sh', Top(key), (L1_SIZE, 0)) && (c > 0 ==> Counted(mem', sh'))
  {
    var p := (Top(key), Mid(key));
    var m := sh.l2[Top(key)];
    var mem' := PutMiddle(mem, m, Mid(key), 0, c);
    assert LeafOk(mem, own, r, sh, p);
    OccupiedUpdate(mem[m][..L2_SIZE], Mid(key), 0);
    assert mem'[m][..L2_SIZE] == mem[m][..L2_SIZE][Mid(key) := 0];
    forall i | i in sh.l2 && i != Top(key) ensures sh.l2[i] in mem && mem'[sh.l2[i]] == mem[sh.l2[i]] && i < L1_SIZE {
      assert MiddleOk(mem, own, r, sh, i);
    }
    forall q | q in sh.l3 ensures sh.l3[q] in mem && mem'[sh.l3[q]] == mem[sh.l3[q]] {
      assert LeafOk(mem, own, r, sh, q);
    }
  }

  /** Taking a middle node without leaves out of the trie. */
  lemma {:induction false} DropMiddle(mem: Mem, own: map<nat, Role>, r: nat, sh: Shape, i: nat)
    requires TrieOk(mem, own, r, sh) && i in sh.l2 && MiddleOk(mem, own, r, sh, i)
    requires forall j :: 0 <= j < L2_SIZE ==> Slot(mem, sh.l2[i], j) == 0
    ensures
      var mem' := Put(mem, r, i, 0);
      var sh' := sh.(l2 := sh.l2 - {i});
      TrieOk(mem', own[sh.l2[i] := Record], r, sh') &&
      (forall k: nat :: Value(mem', sh', k) == Value(mem, sh, k)) &&
      (Exact(mem, sh) && NoneEmptyBut(mem, sh, i, (L1_SIZE, 0)) ==> Counted(mem', sh'))
  {
    var mem', own' := Put(mem, r, i, 0), own[sh.l2[i] := Record];
    var sh' := sh.(l2 := sh.l2 - {i});
    forall i' | i' in sh'.l2
      ensures MiddleOk(mem', own', r, sh', i') && sh.l2[i'] in mem && mem'[sh.l2[i']] == mem[sh.l2[i']]
    {
      assert MiddleOk(mem, own, r, sh, i');
    }
    forall q | q in sh.l3 ensures LeafOk(mem', own', r, sh', q) && sh.l3[q] in mem && mem'[sh.l3[q]] == mem[sh.l3[q]] {
      assert LeafOk(mem, own, r, sh, q);
      assert MiddleOk(mem, own, r, sh, q.0);
      assert Slot(mem, sh.l2[q.0], q.1) == At(sh.l3, (q.0, q.1)) == sh.l3[q];
    }
  }

  // ---- free lists ----

  /** The free list of one object size, its head last. */
  ghost function FreeList(free: map<nat, seq<nat>>, size: nat): seq<nat> {
    if size in free then free[size] else []
  }

  ghost function Head(free: map<nat, seq<nat>>, size: nat): nat {
    var l := FreeList(free, size);
    if l == [] then 0 else l[|l| - 1]
  }

  /** The list without its head. */
  ghost function Popped(l: seq<nat>): seq<nat> {
    if l == [] then [] else l[..|l| - 1]
  }

  /** Cached objects have their list's size, are linked through their first word, and carry their
      place in their list as their role - so lists are acyclic, pairwise disjoint, and disjoint from
      every object in use. */
  ghost predicate FreeOk(mem: Mem, own: map<nat, Role>, free: map<nat, seq<nat>>) {
    (forall s, p {:trigger CachedOk(mem, own, free, s, p)} ::
      s in free && 0 <= p < |free[s]| ==> CachedOk(mem, own, free, s, p)) &&
    (forall a :: a in own && own[a].Cached? ==>
      own[a].pos < |FreeList(free, own[a].size)| && FreeList(free, own[a].size)[own[a].pos] == a) &&
    (forall s :: s in free ==> 0 < s < KEY_LIMIT && s != L1_BYTES)
  }

  ghost predicate CachedOk(mem: Mem, own: map<nat, Role>, free: map<nat, seq<nat>>, s: nat, p: nat)
    requires s in free && p < |free[s]|
  {
    var a := free[s][p];
    a != 0 && a in mem && a in own && own[a] == Cached(s, p) && WORD * |mem[a]| == s && |mem[a]| > 0 &&
    mem[a][0] == if p == 0 then 0 else free[s][p - 1]
  }

  /** The free-list map holds the head of every list (but, in mid-operation, for one size). */
  ghost predicate HeadsAgree(mem: Mem, sh: Shape, free: map<nat, seq<nat>>, except: nat) {
    forall s: nat :: s < KEY_LIMIT && s != except ==> Value(mem, sh, s) == Head(free, s)
  }

  /** Every node role is that of a node its trie refers to: no node leaks, and none has a double. */
  ghost predicate NodesBack(own: map<nat, Role>, shapes: map<nat, Shape>) {
    (forall r :: r in shapes ==> r in own && own[r] == TrieRoot) &&
    (forall a :: a in own ==>
      match own[a]
      case TrieRoot => a in shapes
      case Middle(r, i) => r in shapes && i in shapes[r].l2 && shapes[r].l2[i] == a
      case Leaf(r, i, j) => r in shapes && (i, j) in shapes[r].l3 && shapes[r].l3[(i, j)] == a
      case _ => true)
  }

  // ---- free lists and the free-list map together ----

  /** The free lists and, if it exists, the map that holds their heads. */
  ghost predicate CoreOk(mem: Mem, own: map<nat, Role>, shapes: map<nat, Shape>, free: map<nat, seq<nat>>, flm: nat,
          except: nat) {
    mem.Keys == own.Keys && 0 !in mem && FreeOk(mem, own, free) && NodesBack(own, shapes) &&
    if flm == 0 then forall s :: FreeList(free, s) == []
    else flm in shapes && TrieOk(mem, own, flm, shapes[flm]) && HeadsAgree(mem, shapes[flm], free, except)
  }

  /** The cached objects are the same. */
  ghost predicate SameCached(mem: Mem, own: map<nat, Role>, mem': Mem, own': map<nat, Role>) {
    (forall a ::
      a in own && own[a].Cached? ==> a in own' && own'[a] == own[a] && a in mem && a in mem' && mem'[a] == mem[a]) &&
    (forall a :: a in own' && own'[a].Cached? ==> a in own && own[a] == own'[a])
  }

  lemma {:induction false} FreeFrame(mem: Mem, own: map<nat, Role>, mem': Mem, own': map<nat, Role>,
          free: map<nat, seq<nat>>)
    requires FreeOk(mem, own, free) && SameCached(mem, own, mem', own')
    ensures FreeOk(mem', own', free)
  {
    forall s, p: nat | s in free && p < |free[s]| ensures CachedOk(mem', own', free, s, p) {
      assert CachedOk(mem, own, free, s, p);
    }
  }

  /** Changes outside the free lists and the free-list map keep both in order. */
  lemma {:induction false} CoreFrame(mem: Mem, own: map<nat, Role>, shapes: map<nat, Shape>, mem': Mem,
          own': map<nat, Role>, shapes': map<nat, Shape>, free: map<nat, seq<nat>>, flm: nat, except: nat)
    requires CoreOk(mem, own, shapes, free, flm, except)
    requires SameCached(mem, own, mem', own')
    requires flm != 0 ==> SameNodes(mem, own, mem', own', flm) && flm in shapes' && shapes'[flm] == shapes[flm]
    requires mem'.Keys == own'.Keys && 0 !in mem' && NodesBack(own', shapes')
    ensures CoreOk(mem', own', shapes', free, flm, except)
  {
    FreeFrame(mem, own, mem', own', free);
    if flm != 0 { TrieFrame(mem, own, mem', own', flm, shapes[flm]); }
  }

  /** New heads and a free-list map changed by its own operations, the cached objects as they were. */
  lemma {:induction false} CoreMap(mem: Mem, own: map<nat, Role>, mem': Mem, own': map<nat, Role>,
          shapes': map<nat, Shape>, free: map<nat, seq<nat>>, flm: nat, except: nat)
    requires FreeOk(mem, own, free) && SameCached(mem, own, mem', own')
    requires mem'.Keys == own'.Keys && 0 !in mem' && NodesBack(own', shapes')
    requires flm != 0 && flm in shapes' && TrieOk(mem', own', flm, shapes'[flm]) &&
      HeadsAgree(mem', shapes'[flm], free, except)
    ensures CoreOk(mem', own', shapes', free, flm, except)
  {
    FreeFrame(mem, own, mem', own', free);
  }

  /** Taking the head off its list once the map holds its successor. */
  lemma {:induction false} CorePop(mem: Mem, own: map<nat, Role>, shapes: map<nat, Shape>, free: map<nat, seq<nat>>,
          flm: nat, size: nat)
    requires CoreOk(mem, own, shapes, free, flm, size) && flm != 0 && FreeList(free, size) != []
    requires Value(mem, shapes[flm], size) == Head(free[size := Popped(free[size])], size)
    ensures CoreOk(mem, own[Head(free, size) := Record], shapes, free[size := Popped(free[size])], flm, NO_KEY)
  {
    var l := free[size];
    var r := l[|l| - 1];
    var own', free' := own[r := Record], free[size := Popped(l)];
    assert CachedOk(mem, own, free, size, |l| - 1);
    forall s, p: nat | s in free' && p < |free'[s]| ensures CachedOk(mem, own', free', s, p) {
      assert CachedOk(mem, own, free, s, p);
    }
    assert !NodeOf(own, flm, r) by { assert own[flm] == TrieRoot; }
    TrieFrame(mem, own, mem, own', flm, shapes[flm]);
    assert HeadsAgree(mem, shapes[flm], free', NO_KEY);
  }

  /** Putting an object on its list once it is linked and the map holds it. */
  lemma {:induction false} CorePush(mem: Mem, own: map<nat, Role>, shapes: map<nat, Shape>, free: map<nat, seq<nat>>,
          flm: nat, size: nat, ptr: nat)
    requires CoreOk(mem, own, shapes, free, flm, size) && flm != 0 && 0 < size < KEY_LIMIT && size != L1_BYTES
    requires ptr in own && own[ptr] == Record && WORD * |mem[ptr]| == size
    requires mem[ptr][0] == Head(free, size) && Value(mem, shapes[flm], size) == ptr
    ensures CoreOk(mem, own[ptr := Cached(size, |FreeList(free, size)|)], shapes,
                   free[size := FreeList(free, size) + [ptr]], flm, NO_KEY)
  {
    var l := FreeList(free, size);
    var own', free' := own[ptr := Cached(size, |l|)], free[size := l + [ptr]];
    forall s, p: nat | s in free' && p < |free'[s]| ensures CachedOk(mem, own', free', s, p) {
      if s != size || p < |l| { assert CachedOk(mem, own, free, s, p); }
    }
    assert !NodeOf(own, flm, ptr) by { assert own[flm] == TrieRoot; }
    TrieFrame(mem, own, mem, own', flm, shapes[flm]);
    assert HeadsAgree(mem, shapes[flm], free', NO_KEY);
  }

  /** The node role is the one the shape records for n. */
  ghost predicate RoleIn(role: Role, root: nat, sh: Shape, n: nat) {
    match role
    case Middle(r, i) => r == root && i in sh.l2 && sh.l2[i] == n
    case Leaf(r, i, j) => r == root && (i, j) in sh.l3 && sh.l3[(i, j)] == n
    case _ => false
  }

  lemma {:induction false} NodesBackGrow(own: map<nat, Role>, shapes: map<nat, Shape>, root: nat, n: nat, role: Role,
          sh': Shape)
    requires NodesBack(own, shapes) && root in shapes && n in own && own[n] == Record && RoleIn(role, root, sh', n)
    requires Extends(shapes[root].l2, sh'.l2) && Extends(shapes[root].l3, sh'.l3)
    ensures NodesBack(own[n := role], shapes[root := sh'])
  {}

  lemma {:induction false} RootIsRoot(mem: Mem, own: map<nat, Role>, root: nat, sh: Shape)
    requires TrieOk(mem, own, root, sh)
    ensures root in mem && root in own && own[root] == TrieRoot
  {}

  lemma {:induction false} CachedKept(mem: Mem, own: map<nat, Role>, root: nat, n: nat, role: Role, mem': Mem)
    requires mem.Keys == own.Keys && mem'.Keys == mem.Keys && root in own && own[root] == TrieRoot
    requires n in own && own[n] == Record && !role.Cached?
    requires forall a :: a in mem && a != n && !NodeOf(own, root, a) ==> mem'[a] == mem[a]
    ensures SameCached(mem, own, mem', own[n := role])
    ensures forall r :: r != root && r in own && own[r] == TrieRoot ==> SameNodes(mem, own, mem', own[n := role], r)
  {}

  lemma {:induction false} HeadsKept(mem: Mem, sh: Shape, mem': Mem, sh': Shape, free: map<nat, seq<nat>>, except: nat)
    requires HeadsAgree(mem, sh, free, except) && forall k: nat :: Value(mem', sh', k) == Value(mem, sh, k)
    ensures HeadsAgree(mem', sh', free, except)
  {}

  /** Giving a new node to a trie, the free-list map included, keeps the free lists in order. */
  lemma {:induction false} CoreGrow(mem: Mem, own: map<nat, Role>, shapes: map<nat, Shape>, free: map<nat, seq<nat>>,
          flm: nat, root: nat, mem': Mem, n: nat, role: Role, sh': Shape)
    requires CoreOk(mem, own, shapes, free, flm, NO_KEY) && root in shapes && TrieOk(mem, own, root, shapes[root])
    requires n in own && own[n] == Record && RoleIn(role, root, sh', n)
    requires Extends(shapes[root].l2, sh'.l2) && Extends(shapes[root].l3, sh'.l3)
    requires mem'.Keys == mem.Keys && forall a :: a in mem && a != n && !NodeOf(own, root, a) ==> mem'[a] == mem[a]
    requires TrieOk(mem', own[n := role], root, sh')
    requires forall k: nat :: Value(mem', sh', k) == Value(mem, shapes[root], k)
    ensures CoreOk(mem', own[n := role], shapes[root := sh'], free, flm, NO_KEY)
  {
    hide HeadsAgree, FreeOk, NodesBack, TrieOk;
    var own', shapes' := own[n := role], shapes[root := sh'];
    NodesBackGrow(own, shapes, root, n, role, sh');
    RootIsRoot(mem, own, root, shapes[root]);
    CachedKept(mem, own, root, n, role, mem');
    if flm != 0 && root == flm {
      HeadsKept(mem, shapes[root], mem', sh', free, NO_KEY);
      CoreMap(mem, own, mem', own', shapes', free, flm, NO_KEY);
    } else {
      if flm != 0 { RootIsRoot(mem, own, flm, shapes[flm]); }
      CoreFrame(mem, own, shapes, mem', own', shapes', free, flm, NO_KEY);
    }
  }

  /** Storing to a slot of a trie keeps the free lists in order, but for the head just written. */
  lemma {:induction false} CoreWrite(mem: Mem, own: map<nat, Role>, shapes: map<nat, Shape>, free: map<nat, seq<nat>>,
          flm: nat, root: nat, mem': Mem, key: nat)
    requires CoreOk(mem, own, shapes, free, flm, NO_KEY) && root in shapes && root != 0 &&
      TrieOk(mem, own, root, shapes[root])
    requires mem'.Keys == mem.Keys && forall a :: a in mem && !NodeOf(own, root, a) ==> mem'[a] == mem[a]
    requires TrieOk(mem', own, root, shapes[root])
    requires forall k: nat :: k < KEY_LIMIT && k != key ==> Value(mem', shapes[root], k) == Value(mem, shapes[root], k)
    ensures CoreOk(mem', own, shapes, free, flm, if root == flm then key else NO_KEY)
  {
    assert SameCached(mem, own, mem', own);
    if root == flm {
      CoreMap(mem, own, mem', own, shapes, free, flm, key);
    } else {
      CoreFrame(mem, own, shapes, mem', own, shapes, free, flm, NO_KEY);
    }
  }

  /** A new object outside every list and trie. */
  lemma {:induction false} CoreExtend(mem: Mem, own: map<nat, Role>, shapes: map<nat, Shape>, free: map<nat, seq<nat>>,
          flm: nat, n: nat, words: seq<nat>)
    requires CoreOk(mem, own, shapes, free, flm, NO_KEY) && n !in mem && n != 0
    ensures CoreOk(mem[n := words], own[n := Record], shapes, free, flm, NO_KEY)
  {
    CoreFrame(mem, own, shapes, mem[n := words], own[n := Record], shapes, free, flm, NO_KEY);
  }

  /** The lengths of objects in words are their extents in bytes. */
  ghost predicate SizesOk(mem: Mem, ext: map<nat, nat>) {
    mem.Keys == ext.Keys && forall a :: a in mem ==> WORD * |mem[a]| == ext[a]
  }

  // ---- regions and the bump arena ----

  ghost predicate Apart(a: nat, n: nat, b: nat, m: nat) {
    a + n <= b || b + m <= a
  }

  /** The mapped regions, base to length, do not overlap. */
  ghost predicate RegionsOk(mapped: map<nat, nat>) {
    (forall b, c {:trigger Apart(b, mapped[b], c, mapped[c])} ::
      b in mapped && c in mapped && b != c ==> Apart(b, mapped[b], c, mapped[c])) &&
    (forall b :: b in mapped ==> 0 < b && 0 < mapped[b] && b + mapped[b] <= ADDRESS_LIMIT)
  }

  ghost predicate ArenaOk(mapped: map<nat, nat>, chunks: set<nat>, ext: map<nat, nat>, home: map<nat, nat>, arena: nat,
          cur: nat, end: nat) {
    LayoutOk(mapped, chunks, ext, home, arena, cur, end) && PackedOk(chunks, ext, home, arena, cur)
  }

  /** No memory is wasted: in a chunk the objects follow one another, 16-aligned, without room for another
      16 bytes between them, and the bump pointer follows the last one of the current chunk. An earlier chunk
      was left for one with an object that did not fit behind its last one. */
  ghost predicate PackedOk(chunks: set<nat>, ext: map<nat, nat>, home: map<nat, nat>, arena: nat, cur: nat) {
    (arena == 0 ==> chunks == {}) &&
    (arena != 0 ==> Reached(ext, home, arena, cur)) &&
    (forall a {:trigger home[a]} :: a in ext && a in home ==> a == home[a] + 32 || Reached(ext, home, home[a], a)) &&
    forall c {:trigger Full(chunks, ext, home, c)} :: c in chunks && c != arena ==> Full(chunks, ext, home, c)
  }

  /** p is the next 16-aligned address behind some object of chunk c. */
  ghost predicate Reached(ext: map<nat, nat>, home: map<nat, nat>, c: nat, p: nat) {
    exists b :: Behind(ext, home, c, b, p)
  }

  ghost predicate Behind(ext: map<nat, nat>, home: map<nat, nat>, c: nat, b: nat, p: nat) {
    b in ext && b in home && home[b] == c && p % 16 == 0 && b + ext[b] <= p < b + ext[b] + 16
  }

  ghost predicate Full(chunks: set<nat>, ext: map<nat, nat>, home: map<nat, nat>, c: nat) {
    exists b, p, d :: FullBy(chunks, ext, home, c, b, p, d)
  }

  /** Behind the last object b of chunk c, the first object of chunk d did not fit. */
  ghost predicate FullBy(chunks: set<nat>, ext: map<nat, nat>, home: map<nat, nat>, c: nat, b: nat, p: nat, d: nat) {
    Behind(ext, home, c, b, p) && (forall a {:trigger home[a]} :: a in ext && a in home && home[a] == c ==> a <= b) &&
    d in chunks && d + 32 in ext && p + ext[d + 32] > c + 0x40_0000
  }

  /** Metadata objects lie 16-aligned and disjoint in the metadata chunks, below the bump pointer. */
  ghost predicate LayoutOk(mapped: map<nat, nat>, chunks: set<nat>, ext: map<nat, nat>, home: map<nat, nat>, arena: nat,
          cur: nat, end: nat) {
    (forall c :: c in chunks ==> c in mapped && mapped[c] == META_CHUNK_SIZE && c % 16 == 0) &&
    (arena != 0 ==>
      arena in chunks && cur % 16 == 0 && arena + META_HEADER <= cur <= end && end == arena + META_CHUNK_SIZE) &&
    (forall a {:trigger InChunk(ext, home, chunks, arena, cur, a)} ::
      a in ext ==> InChunk(ext, home, chunks, arena, cur, a)) &&
    (forall a, b {:trigger Apart(a, ext[a], b, ext[b])} ::
      a in ext && b in ext && a != b ==> Apart(a, ext[a], b, ext[b]))
  }

  ghost predicate InChunk(ext: map<nat, nat>, home: map<nat, nat>, chunks: set<nat>, arena: nat, cur: nat, a: nat)
    requires a in ext
  {
    a in home && home[a] in chunks && a % 16 == 0 && home[a] + META_HEADER <= a && 0 < ext[a] &&
    a + ext[a] <= home[a] + META_CHUNK_SIZE && (home[a] == arena ==> a + ext[a] <= cur)
  }

  /** m' extends m. */
  ghost predicate Extends<K, V>(m: map<K, V>, m': map<K, V>) {
    forall k :: k in m ==> k in m' && m'[k] == m[k]
  }

  /** Bumping the pointer past a new object keeps the arena in order. */
  lemma {:induction false} Bump(mapped: map<nat, nat>, chunks: set<nat>, ext: map<nat, nat>, home: map<nat, nat>,
          arena: nat, cur: nat, end: nat, size: nat, cur': nat)
    requires RegionsOk(mapped) && LayoutOk(mapped, chunks, ext, home, arena, cur, end)
    requires arena != 0 && size > 0 && cur + size <= end
    requires cur + size <= cur' < cur + size + 16 && cur' % 16 == 0
    ensures cur !in ext
    ensures LayoutOk(mapped, chunks, ext[cur := size], home[cur := arena], arena, cur', end)
  {
    assert end % 16 == 0;
    var ext', home' := ext[cur := size], home[cur := arena];
    forall a | a in ext
      ensures Apart(a, ext[a], cur, size) && a != cur && InChunk(ext', home', chunks, arena, cur', a)
    {
      assert InChunk(ext, home, chunks, arena, cur, a);
      if home[a] != arena { assert Apart(home[a], mapped[home[a]], arena, mapped[arena]); }
    }
    forall a, b | a in ext' && b in ext' && a != b ensures Apart(a, ext'[a], b, ext'[b]) {
      if a != cur && b != cur { assert Apart(a, ext[a], b, ext[b]); }
    }
  }

  /** A new object behind the others of the current chunk, or the first one of a new chunk, which is there
      because the object did not fit into the one before. */
  lemma {:induction false} BumpPacked(mapped: map<nat, nat>, chunks: set<nat>, ext: map<nat, nat>, home: map<nat, nat>,
          arena: nat, cur: nat, end: nat, chunks': set<nat>, arena': nat, at: nat, size: nat, cur': nat)
    requires ArenaOk(mapped, chunks, ext, home, arena, cur, end) && at !in ext && at % 16 == 0 && arena' != 0
    requires cur' % 16 == 0 && at + size <= cur' < at + size + 16
    requires if arena != 0 && size <= end - cur then chunks' == chunks && arena' == arena && at == cur
      else chunks' == chunks + {arena'} && arena' !in chunks && at == arena' + 32
    ensures PackedOk(chunks', ext[at := size], home[at := arena'], arena', cur')
  {
    var ext', home' := ext[at := size], home[at := arena'];
    assert Behind(ext', home', arena', at, cur');
    forall a | a in ext' && a in home' ensures a == home'[a] + 32 || Reached(ext', home', home'[a], a) {
      var c := home'[a];
      if a != c + 32 {
        assert a != at ==> c == home[a];
        assert Reached(ext, home, c, a);
        var b :| Behind(ext, home, c, b, a);
        assert Behind(ext', home', c, b, a);
      }
    }
    forall c | c in chunks' && c != arena' ensures Full(chunks', ext', home', c) {
      if c == arena {
        LeftFull(mapped, chunks, ext, home, arena, cur, end, chunks', arena', size);
      } else {
        assert Full(chunks, ext, home, c);
        var b, p, d :| FullBy(chunks, ext, home, c, b, p, d);
        StillFull(chunks, ext, home, chunks', at, size, arena', c, b, p, d);
      }
    }
  }

  lemma {:induction false} StillFull(chunks: set<nat>, ext: map<nat, nat>, home: map<nat, nat>, chunks': set<nat>,
          at: nat, size: nat, arena': nat, c: nat, b: nat, p: nat, d: nat)
    requires FullBy(chunks, ext, home, c, b, p, d) && at !in ext && c != arena' && chunks <= chunks'
    ensures Full(chunks', ext[at := size], home[at := arena'], c)
  {
    assert FullBy(chunks', ext[at := size], home[at := arena'], c, b, p, d);
  }

  lemma {:induction false} BelowCur(mapped: map<nat, nat>, chunks: set<nat>, ext: map<nat, nat>, home: map<nat, nat>,
          arena: nat, cur: nat, end: nat, a: nat, b: nat)
    requires LayoutOk(mapped, chunks, ext, home, arena, cur, end) && arena != 0 && Behind(ext, home, arena, b, cur)
    requires a in ext && a in home && home[a] == arena
    ensures a <= b
  {
    assert InChunk(ext, home, chunks, arena, cur, a) && InChunk(ext, home, chunks, arena, cur, b);
    assert a == b || Apart(a, ext[a], b, ext[b]);
  }

  /** The chunk that is left: its last object is the one the bump pointer rests behind. */
  lemma {:induction false} LeftFull(mapped: map<nat, nat>, chunks: set<nat>, ext: map<nat, nat>, home: map<nat, nat>,
          arena: nat, cur: nat, end: nat, chunks': set<nat>, arena': nat, size: nat)
    requires ArenaOk(mapped, chunks, ext, home, arena, cur, end) && arena != 0 && size > end - cur
    requires arena' in chunks' && arena' != arena && arena' + 32 !in ext
    ensures Full(chunks', ext[arena' + 32 := size], home[arena' + 32 := arena'], arena)
  {
    var ext', home' := ext[arena' + 32 := size], home[arena' + 32 := arena'];
    assert Reached(ext, home, arena, cur);
    var b :| Behind(ext, home, arena, b, cur);
    forall a | a in ext' && a in home' && home'[a] == arena ensures a <= b {
      BelowCur(mapped, chunks, ext, home, arena, cur, end, a, b);
    }
    assert FullBy(chunks', ext', home', arena, b, cur, arena');
  }

  // ---- the watched keys of lock-free readers ----

  /** In memory m, the key's path through the trie is the given one. */
  ghost predicate Holds(m: Mem, r: nat, key: nat, p: Path) {
    p.mid != 0 && p.leaf != 0 && p.value != 0 && r in m && p.mid in m && p.leaf in m &&
    Slot(m, r, Top(key)) == p.mid && Slot(m, p.mid, Mid(key)) == p.leaf && Slot(m, p.leaf, Low(key)) == p.value
  }

  ghost predicate AllHold(m: Mem, r: nat, watched: map<nat, Path>) {
    forall k :: k in watched ==> Holds(m, r, k, watched[k])
  }

  /** The watched paths run through nodes of the watched trie. */
  ghost predicate WatchRoles(own: map<nat, Role>, r: nat, watched: map<nat, Path>) {
    forall k :: k in watched ==> WatchRole(own, r, k, watched[k])
  }

  ghost predicate WatchRole(own: map<nat, Role>, r: nat, key: nat, p: Path) {
    key < KEY_LIMIT && r in own && own[r] == TrieRoot &&
    p.mid in own && own[p.mid] == Middle(r, Top(key)) &&
    p.leaf in own && own[p.leaf] == Leaf(r, Top(key), Mid(key))
  }

  /** The watched paths have been in place in every memory of the trace, which leads to this one. */
  ghost predicate WatchOk(mem: Mem, own: map<nat, Role>, flm: nat, r: nat, watched: map<nat, Path>, trace: seq<Mem>) {
    (watched != map[] ==> r != flm && r in own && own[r] == TrieRoot) &&
    WatchRoles(own, r, watched) && AllHold(mem, r, watched) && TraceHolds(trace, r, watched) && TraceOk(trace, mem)
  }

  ghost predicate TraceHolds(trace: seq<Mem>, r: nat, watched: map<nat, Path>) {
    forall n :: 0 <= n < |trace| ==> AllHold(trace[n], r, watched)
  }

  /** One store to word i of the object at a, or the appearance of a zeroed object at a. */
  ghost predicate StepAt(m: Mem, m': Mem, a: nat, i: nat) {
    a in m' && i < |m'[a]| &&
    if a in m then i < |m[a]| && m' == Put(m, a, i, m'[a][i]) else m' == m[a := Zeros(|m'[a]|)]
  }

  ghost predicate OneStep(m: Mem, m': Mem) {
    exists a, i :: StepAt(m, m', a, i)
  }

  ghost predicate StepIn(trace: seq<Mem>, n: nat) {
    0 < n < |trace| ==> OneStep(trace[n - 1], trace[n])
  }

  /** The trace misses no memory on its way to the current one: no two stores make one step. */
  ghost predicate TraceOk(trace: seq<Mem>, mem: Mem) {
    trace != [] && trace[|trace| - 1] == mem && forall n {:trigger StepIn(trace, n)} :: 0 <= n ==> StepIn(trace, n)
  }

  lemma {:induction false} TraceGrows(trace: seq<Mem>, mem: Mem, mem': Mem, a: nat, i: nat)
    requires TraceOk(trace, mem) && StepAt(mem, mem', a, i)
    ensures TraceOk(trace + [mem'], mem')
  {
    hide StepAt;
    var trace' := trace + [mem'];
    forall n: nat ensures StepIn(trace', n) {
      assert StepIn(trace, n);
      assert n == |trace| ==> trace'[n - 1] == mem && OneStep(mem, mem');
    }
  }

  /** A store outside the watched trie, or to a slot that is NULL, does not disturb a watched path. */
  lemma {:induction false} StoreElsewhere(m: Mem, own: map<nat, Role>, r: nat, watched: map<nat, Path>, a: nat, i: nat,
          v: nat)
    requires AllHold(m, r, watched) && WatchRoles(own, r, watched)
    requires a in m && i < |m[a]| && (NodeOf(own, r, a) ==> m[a][i] == 0)
    ensures AllHold(Put(m, a, i, v), r, watched)
  {
    forall k | k in watched ensures Holds(Put(m, a, i, v), r, k, watched[k]) {
      assert Holds(m, r, k, watched[k]);
    }
  }

  /** A store to a count, or to the slot of a key that is not watched, does not disturb a watched path. */
  lemma {:induction false} StoreBeside(m: Mem, own: map<nat, Role>, r: nat, watched: map<nat, Path>, a: nat, i: nat,
          v: nat, root: nat, key: nat)
    requires AllHold(m, r, watched) && WatchRoles(own, r, watched) && key < KEY_LIMIT
    requires root == r ==> key !in watched
    requires watched != map[] ==> r in own && own[r] == TrieRoot
    requires a in m && i < |m[a]| && a in own
    requires (own[a] == Middle(root, Top(key)) && i == L2_SIZE) ||
      (own[a] == Leaf(root, Top(key), Mid(key)) && (i == L3_SIZE || i == Low(key)))
    ensures AllHold(Put(m, a, i, v), r, watched)
  {
    if root != r {
      if watched != map[] { StoreElsewhere(m, own, r, watched, a, i, v); }
    } else {
      forall k | k in watched ensures Holds(Put(m, a, i, v), r, k, watched[k]) {
        assert Holds(m, r, k, watched[k]);
        if watched[k].leaf == a && Low(k) == i { SplitInjective(k, key); }
      }
    }
  }

  /** A change of the role of an object outside the watched trie. */
  lemma {:induction false} WatchFrame(mem: Mem, own: map<nat, Role>, a: nat, role: Role, flm: nat, r: nat,
          watched: map<nat, Path>, trace: seq<Mem>)
    requires WatchOk(mem, own, flm, r, watched, trace)
    requires a in own && own[a] != TrieRoot && !own[a].Middle? && !own[a].Leaf?
    ensures WatchOk(mem, own[a := role], flm, r, watched, trace)
  {
    hide TraceOk;
    forall k | k in watched ensures WatchRole(own[a := role], r, k, watched[k]) {
      assert WatchRole(own, r, k, watched[k]);
    }
  }

  /** A new zeroed object. */
  lemma {:induction false} WatchExtend(mem: Mem, own: map<nat, Role>, a: nat, size: nat, flm: nat, r: nat,
          watched: map<nat, Path>, trace: seq<Mem>)
    requires WatchOk(mem, own, flm, r, watched, trace) && a !in mem && a !in own && size > 0
    ensures var mem' := mem[a := Zeros(size)];
      WatchOk(mem', own[a := Record], flm, r, watched, trace + [mem'])
  {
    hide TraceOk;
    var mem' := mem[a := Zeros(size)];
    TraceGrows(trace, mem, mem', a, 0);
    forall k | k in watched ensures Holds(mem', r, k, watched[k]) && WatchRole(own[a := Record], r, k, watched[k]) {
      assert Holds(mem, r, k, watched[k]) && WatchRole(own, r, k, watched[k]);
    }
  }

  // ---- the lock-free reader, src/range_map.c:119-127 ----

  /** cmalloc_get with each of its six loads taken from the memory at its own moment. */
  ghost function Reader(m: seq<Mem>, r: nat, key: nat): nat
    requires |m| == 6
  {
    if Slot(m[0], r, Top(key)) == 0 then 0
    else if Slot(m[2], Slot(m[1], r, Top(key)), Mid(key)) == 0 then 0
    else Slot(m[5], Slot(m[4], Slot(m[3], r, Top(key)), Mid(key)), Low(key))
  }

  /** Whatever moments its loads fall on, a reader of a watched key finds the watched value. */
  lemma {:induction false} ReaderFinds(m: seq<Mem>, r: nat, watched: map<nat, Path>, key: nat)
    requires |m| == 6 && key in watched
    requires forall n :: 0 <= n < 6 ==> AllHold(m[n], r, watched)
    ensures Reader(m, r, key) == watched[key].value
  {
    forall n | 0 <= n < 6 ensures Holds(m[n], r, key, watched[key]) { assert AllHold(m[n], r, watched); }
  }
}
