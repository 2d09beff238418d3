/** The size-class tables of src/common.h and the lookup table src/cmalloc.c fills at start-up. */
module SizeClasses {
  import opened Linear

  const BYTE_ALIGNMENT: nat := 16
  const LARGE_CLASS_SIZE_INDEX: int := -1
  const MAX_SIZE_CLASS: nat := 32768
  const SIZE_CLASS_TABLE_LEN: nat := 2049

  const SIZE_CLASSES: seq<nat> :=
    [16, 32, 48, 64, 80, 96, 112, 128] +
    [144, 160, 176, 192, 208, 224, 240, 256] +
    [288, 320, 352, 384, 416, 448, 480, 512] +
    [576, 640, 704, 768, 832, 896, 960, 1024] +
    [1152, 1280, 1408, 1536, 1792, 2048] +
    [2560, 3072, 3584, 4096] +
    [5120, 6144, 7168, 8192] +
    [16384, 32768]

  const SIZE_CLASS_SPAN_SIZE: seq<nat> :=
    [65536, 65536, 65536, 65536, 65536, 65536, 65536, 65536] +
    [65536, 65536, 65536, 65536, 65536, 65536, 65536, 65536] +
    [131072, 131072, 131072, 131072, 131072, 131072, 131072, 131072] +
    [131072, 131072, 131072, 131072, 131072, 131072, 131072, 131072] +
    [262144, 262144, 262144, 262144, 262144, 262144] +
    [524288, 524288, 524288, 524288] +
    [524288, 524288, 524288, 524288] +
    [1048576, 1048576]

  const SIZE_CLASS_BLOCK_COUNT: seq<nat> :=
    [4096, 2048, 1365, 1024, 819, 682, 585, 512] +
    [455, 409, 372, 341, 315, 292, 273, 256] +
    [455, 409, 372, 341, 315, 292, 273, 256] +
    [227, 204, 186, 170, 157, 146, 136, 128] +
    [227, 204, 186, 170, 146, 128] +
    [204, 170, 146, 128] +
    [102, 85, 73, 64] +
    [64, 32]

  const SIZE_CLASS_COUNT: nat := 48

  /** The table is one the lookup works for: ascending multiples of 16 up to the maximum, few enough
      for an unsigned char. */
  ghost predicate Tiered(classes: seq<nat>) {
    0 < |classes| <= 256 && classes[|classes| - 1] == MAX_SIZE_CLASS &&
    (forall i :: 0 <= i < |classes| ==> classes[i] % BYTE_ALIGNMENT == 0) &&
    (forall i, j :: 0 <= i < j < |classes| ==> classes[i] < classes[j])
  }

  /** Class c is the first whose blocks hold size bytes: what a linear scan finds. */
  ghost predicate LeastFit(classes: seq<nat>, size: nat, c: int) {
    0 <= c < |classes| && size <= classes[c] && forall i :: 0 <= i < c ==> classes[i] < size
  }

  /** src/cmalloc.c:31-40: one pass over buckets and classes together. */
  method FillTable(classes: seq<nat>) returns (table: seq<nat>)
    requires Tiered(classes)
    ensures |table| == SIZE_CLASS_TABLE_LEN
    ensures forall b :: 0 <= b < |table| ==> LeastFit(classes, 16 * b, table[b])
  {
    table := [];
    var cls := 0;
    for b := 0 to SIZE_CLASS_TABLE_LEN
      invariant |table| == b && 0 <= cls < |classes|
      invariant forall i :: 0 <= i < cls ==> classes[i] < 16 * b
      invariant forall b' :: 0 <= b' < b ==> LeastFit(classes, 16 * b', table[b'])
    {
      var largestInBucket := 16 * b;
      while cls < |classes| && classes[cls] < largestInBucket
        invariant 0 <= cls < |classes|
        invariant forall i :: 0 <= i < cls ==> classes[i] < largestInBucket
      {
        cls := cls + 1;
      }
      table := table + [(if cls < |classes| then cls else 0) % 256];
    }
  }

  /** src/common.h:140-145 */
  function ClassIndex(table: seq<nat>, size: nat): int
    requires |table| == SIZE_CLASS_TABLE_LEN
  {
    if size > MAX_SIZE_CLASS then LARGE_CLASS_SIZE_INDEX
    else table[(size + (BYTE_ALIGNMENT - 1)) / 16]
  }

  /** The lookup finds what a scan of the classes for the size itself would: rounding the size up to
      its bucket passes no class by. */
  lemma {:induction false} LookupIsScan(classes: seq<nat>, table: seq<nat>, size: nat)
    requires Tiered(classes) && |table| == SIZE_CLASS_TABLE_LEN
    requires forall b :: 0 <= b < |table| ==> LeastFit(classes, 16 * b, table[b])
    ensures if size > MAX_SIZE_CLASS then ClassIndex(table, size) == LARGE_CLASS_SIZE_INDEX
      else LeastFit(classes, size, ClassIndex(table, size))
  {
    if size <= MAX_SIZE_CLASS {
      var b := (size + 15) / 16;
      assert LeastFit(classes, 16 * b, table[b]);
      forall i | 0 <= i < table[b] ensures classes[i] < size { Bucket(size, classes[i], b); }
    }
  }

  /** A multiple of 16 below the end of the size's bucket is below the size. */
  lemma {:induction false} Bucket(size: nat, c: nat, b: nat)
    requires c % 16 == 0 && b == (size + 15) / 16 && c < 16 * b
    ensures c < size
  {
    assert c == 16 * (c / 16);
  }

  /** What holds of each class of the shipped tables: block sizes ascend in multiples of 16, at most
      doubling, ... */
  ghost predicate SizeOk(i: nat)
    requires i < |SIZE_CLASSES|
  {
    SIZE_CLASSES[i] % 16 == 0 && 16 <= SIZE_CLASSES[i] <= MAX_SIZE_CLASS &&
    if i == 0 then SIZE_CLASSES[i] == 16 else SIZE_CLASSES[i - 1] < SIZE_CLASSES[i] <= 2 * SIZE_CLASSES[i - 1]
  }

  /** ... and a span has room for exactly its block count, which is at least two. */
  predicate CountOk(size: nat, spanSize: nat, count: nat) {
    2 <= count <= 4096 && 0 < spanSize <= 0x10_0000 && count * size <= spanSize < (count + 1) * size
  }

  ghost predicate ClassCountOk(i: nat) {
    i < |SIZE_CLASSES| && |SIZE_CLASSES| == |SIZE_CLASS_SPAN_SIZE| == |SIZE_CLASS_BLOCK_COUNT| &&
    CountOk(SIZE_CLASSES[i], SIZE_CLASS_SPAN_SIZE[i], SIZE_CLASS_BLOCK_COUNT[i])
  }

  lemma {:induction false} ShippedSizes()
    ensures |SIZE_CLASSES| == |SIZE_CLASS_SPAN_SIZE| == |SIZE_CLASS_BLOCK_COUNT| == SIZE_CLASS_COUNT
    ensures SIZE_CLASSES[47] == MAX_SIZE_CLASS && forall i: nat :: i < SIZE_CLASS_COUNT ==> SizeOk(i)
  {
    forall i: nat | i < SIZE_CLASS_COUNT ensures SizeOk(i) {}
  }

  // row by row, so that the verifier need not try every class at once

  lemma {:induction false} CountsOfRow1(i: nat)
    requires 0 <= i < 8
    ensures ClassCountOk(i)
  {}

  lemma {:induction false} CountsOfRow2(i: nat)
    requires 8 <= i < 16
    ensures ClassCountOk(i)
  {}

  lemma {:induction false} CountsOfRow3(i: nat)
    requires 16 <= i < 24
    ensures ClassCountOk(i)
  {}

  lemma {:induction false} CountsOfRow4(i: nat)
    requires 24 <= i < 32
    ensures ClassCountOk(i)
  {}

  lemma {:induction false} CountsOfRow5(i: nat)
    requires 32 <= i < 38
    ensures ClassCountOk(i)
  {}

  lemma {:induction false} CountsOfRow6(i: nat)
    requires 38 <= i < 48
    ensures ClassCountOk(i)
  {}

  lemma {:induction false} ShippedCounts(i: nat)
    requires i < SIZE_CLASS_COUNT
    ensures ClassCountOk(i)
  {
    hide ClassCountOk;
    if i < 8 { CountsOfRow1(i); }
    else if i < 16 { CountsOfRow2(i); }
    else if i < 24 { CountsOfRow3(i); }
    else if i < 32 { CountsOfRow4(i); }
    else if i < 38 { CountsOfRow5(i); }
    else { CountsOfRow6(i); }
  }

  /** The shipped tables suit the lookup. */
  lemma {:induction false} ShippedTiered()
    ensures Tiered(SIZE_CLASSES)
  {
    ShippedSizes();
    forall i, j | 0 <= i < j < |SIZE_CLASSES| ensures SIZE_CLASSES[i] < SIZE_CLASSES[j] { Ascending(i, j); }
    forall i: nat | i < |SIZE_CLASSES| ensures SIZE_CLASSES[i] % BYTE_ALIGNMENT == 0 { assert SizeOk(i); }
  }

  lemma {:induction false} Ascending(i: nat, j: nat)
    requires i < j < |SIZE_CLASSES| && forall k: nat :: k < |SIZE_CLASSES| ==> SizeOk(k)
    ensures SIZE_CLASSES[i] < SIZE_CLASSES[j]
  {
    assert SizeOk(j);
    if i < j - 1 { Ascending(i, j - 1); }
  }

  // ---- what a span of a class, or a large one, is made of ----

  predicate IsClass(c: int) {
    c == LARGE_CLASS_SIZE_INDEX || 0 <= c < SIZE_CLASS_COUNT
  }

  ghost function SpanBytes(c: int, size: nat): nat {
    if 0 <= c < |SIZE_CLASS_SPAN_SIZE| then SIZE_CLASS_SPAN_SIZE[c] else size
  }

  ghost function BlockBytes(c: int, size: nat): nat {
    if 0 <= c < |SIZE_CLASSES| then SIZE_CLASSES[c] else size
  }

  ghost function BlocksIn(c: int): nat {
    if 0 <= c < |SIZE_CLASS_BLOCK_COUNT| then SIZE_CLASS_BLOCK_COUNT[c] else 1
  }

  /** A block of b bytes serves the request: every class that holds the request has blocks of at least b bytes,
      a request too large for the classes gets exactly its size, and less than half of the block is slack. */
  ghost predicate Serves(b: nat, request: nat) {
    request <= b && (request >= 9 ==> b <= 2 * (request - 1)) && (request > MAX_SIZE_CLASS ==> b == request) &&
    forall i {:trigger SIZE_CLASSES[i]} ::
      0 <= i < |SIZE_CLASSES| && request <= SIZE_CLASSES[i] ==> b <= SIZE_CLASSES[i]
  }

  /** The least class that holds a request serves it. */
  lemma {:induction false} LeastServes(request: nat, c: int)
    requires if request > MAX_SIZE_CLASS then c == LARGE_CLASS_SIZE_INDEX else LeastFit(SIZE_CLASSES, request, c)
    ensures Serves(BlockBytes(c, request), request)
  {
    ShippedTiered();
    ShippedSizes();
    if request <= MAX_SIZE_CLASS { assert SizeOk(c); }
    forall i | 0 <= i < |SIZE_CLASSES| && request <= SIZE_CLASSES[i] ensures BlockBytes(c, request) <= SIZE_CLASSES[i] {
      assert SizeOk(i);
    }
  }

  /** So does the class the lookup finds. */
  lemma {:induction false} SlackBound(table: seq<nat>, size: nat)
    requires |table| == SIZE_CLASS_TABLE_LEN
    requires forall b :: 0 <= b < |table| ==> LeastFit(SIZE_CLASSES, 16 * b, table[b])
    ensures Serves(BlockBytes(ClassIndex(table, size), size), size)
  {
    ShippedTiered();
    LookupIsScan(SIZE_CLASSES, table, size);
    LeastServes(size, ClassIndex(table, size));
  }

  /** A span of n pages is one of class c: it has the class's count of blocks of the class's size, in the least
      number of pages that hold the class's span size. */
  ghost predicate ClassSpan(c: int, size: nat, count: nat, n: nat, pageSize: nat) {
    0 <= c < |SIZE_CLASSES| && c < |SIZE_CLASS_BLOCK_COUNT| && c < |SIZE_CLASS_SPAN_SIZE| && n > 0 &&
    size == SIZE_CLASSES[c] && count == SIZE_CLASS_BLOCK_COUNT[c] &&
    Times(n - 1, pageSize) < SIZE_CLASS_SPAN_SIZE[c] <= Times(n, pageSize)
  }

  /** Such a span has no room for one more block, but for what rounding up to pages leaves. */
  lemma {:induction false} NoMoreRoom(c: int, size: nat, count: nat, n: nat, pageSize: nat)
    requires ClassSpan(c, size, count, n, pageSize)
    ensures 2 <= count && Times(count, size) <= Times(n, pageSize) < Times(count + 1, size) + pageSize
  {
    ShippedSizes();
    ClassSizes(c);
    assert BlocksIn(c) == count && BlockBytes(c, size) == size;
    assert Times(count, size) <= SpanBytes(c, size);
    assert SpanBytes(c, size) <= Times(n, pageSize);
  }

  lemma {:induction false} IsClassSpan(c: int, size: nat, n: nat, pageSize: nat)
    requires 0 <= c < SIZE_CLASS_COUNT && n > 0 && Times(n - 1, pageSize) < SpanBytes(c, size) <= Times(n, pageSize)
    ensures ClassSpan(c, BlockBytes(c, size), BlocksIn(c), n, pageSize)
  {
    ShippedSizes();
  }

  /** The blocks of a span fit it and leave no room for another; a span of a class has at least two, a large one
      has one. */
  lemma {:induction false} ClassSizes(c: int)
    requires IsClass(c)
    ensures |SIZE_CLASSES| == |SIZE_CLASS_SPAN_SIZE| == |SIZE_CLASS_BLOCK_COUNT| == SIZE_CLASS_COUNT
    ensures forall size: nat :: Times(BlocksIn(c), BlockBytes(c, size)) <= SpanBytes(c, size)
    ensures 0 < BlocksIn(c) <= 4096 && (c != LARGE_CLASS_SIZE_INDEX ==> 2 <= BlocksIn(c))
    ensures c != LARGE_CLASS_SIZE_INDEX ==>
      16 <= SIZE_CLASSES[c] && SIZE_CLASSES[c] % 16 == 0 && 0 < SIZE_CLASS_SPAN_SIZE[c] <= 0x10_0000 &&
      SIZE_CLASS_SPAN_SIZE[c] < Times(SIZE_CLASS_BLOCK_COUNT[c] + 1, SIZE_CLASSES[c])
  {
    ShippedSizes();
    if c != LARGE_CLASS_SIZE_INDEX {
      ShippedCounts(c);
      assert SizeOk(c);
      TimesIsProduct(SIZE_CLASS_BLOCK_COUNT[c] + 1, SIZE_CLASSES[c]);
    }
    forall size: nat ensures Times(BlocksIn(c), BlockBytes(c, size)) <= SpanBytes(c, size) {
      TimesIsProduct(BlocksIn(c), BlockBytes(c, size));
    }
  }
}
