/** src/span.h and the block part of src/span.c: the span record and its two-level
    bitmap of free blocks. */
module Spans {
  import opened Linear
  import opened Words

  const MAX_SPAN_BLOCK_COUNT: nat := 4096
  const BITS_PER_WORD: nat := 64
  const BITMAP_WORDS: nat := 64

  /** The block indices whose bit is set, bit b of word w standing for block 64 w + b. */
  ghost function FreeSet(words: seq<Word>): (s: set<nat>)
    ensures forall i: nat :: i in s <==> i / 64 < |words| && i % 64 in Ones(words[i / 64])
  {
    set i: nat | i < 64 * |words| && i % 64 in Ones(words[i / 64])
  }

  /** The summary word marks exactly the non-zero words. */
  ghost predicate Summarises(nonfull: Word, words: seq<Word>) {
    |words| == BITMAP_WORDS &&
    forall w: nat :: w < BITMAP_WORDS ==> (w in Ones(nonfull) <==> words[w] != 0)
  }

  /** The summary word is zero exactly for an empty set; otherwise its least bit and the least bit
      of the word it selects give the least free block. */
  lemma {:induction false} TwoLevelMinimum(nonfull: Word, words: seq<Word>, w: nat, b: nat)
    requires Summarises(nonfull, words)
    requires nonfull != 0 ==> w < 64 && w in Ones(nonfull) && forall j :: j in Ones(nonfull) ==> w <= j
    requires nonfull != 0 ==> b < 64 && b in Ones(words[w]) && forall j :: j in Ones(words[w]) ==> b <= j
    ensures nonfull == 0 <==> FreeSet(words) == {}
    ensures nonfull != 0 ==>
      64 * w + b in FreeSet(words) && forall i :: i in FreeSet(words) ==> 64 * w + b <= i
  {
    ZeroIsEmpty(nonfull);
    forall i | i in FreeSet(words) ensures i / 64 in Ones(nonfull) { ZeroIsEmpty(words[i / 64]); }
    if nonfull != 0 {
      assert (64 * w + b) / 64 == w && (64 * w + b) % 64 == b;
      forall i | i in FreeSet(words) ensures 64 * w + b <= i {
        assert i == 64 * (i / 64) + i % 64 && w <= i / 64;
      }
    }
  }

  /** Dropping bit b from word w, and bit w from the summary if nothing is left there, removes
      block 64 w + b. */
  lemma {:induction false} RemoveBlock(nonfull: Word, words: seq<Word>, w: nat, b: nat, word: Word, nonfull': Word)
    requires Summarises(nonfull, words) && w < 64 && b < 64 && b in Ones(words[w])
    requires Ones(word) == Ones(words[w]) - {b}
    requires Ones(nonfull') == if word == 0 then Ones(nonfull) - {w} else Ones(nonfull)
    ensures Summarises(nonfull', words[w := word])
    ensures 64 * w + b in FreeSet(words)
    ensures FreeSet(words[w := word]) == FreeSet(words) - {64 * w + b}
  {
    ZeroIsEmpty(words[w]);
    forall j: nat ensures j in FreeSet(words[w := word]) <==> j in FreeSet(words) && j != 64 * w + b {}
  }

  /** Adding bit b to word w and bit w to the summary adds block 64 w + b. */
  lemma {:induction false} AddBlock(nonfull: Word, words: seq<Word>, w: nat, b: nat, word: Word, nonfull': Word)
    requires Summarises(nonfull, words) && w < 64 && b < 64
    requires Ones(word) == Ones(words[w]) + {b} && word != 0
    requires Ones(nonfull') == Ones(nonfull) + {w}
    ensures Summarises(nonfull', words[w := word])
    ensures FreeSet(words[w := word]) == FreeSet(words) + {64 * w + b}
  {
    forall j: nat ensures j in FreeSet(words[w := word]) <==> j in FreeSet(words) || j == 64 * w + b {}
  }

  /** The address of block i of a span. */
  function BlockAddress(base: nat, i: nat, size: nat): nat {
    base + Times(i, size)
  }

  /** The address lies inside block i. */
  ghost predicate InBlock(base: nat, i: nat, size: nat, address: nat) {
    BlockAddress(base, i, size) <= address < BlockAddress(base, i, size) + size
  }

  /** Any address inside block i, interior ones included, divides back to i. */
  lemma {:induction false} BlockOfAddress(base: nat, address: nat, size: nat, i: nat)
    requires size > 0 && InBlock(base, i, size, address)
    ensures base <= address && Quotient(address - base, size) == i
  {
    QuotientOf(address - base, i, size);
  }

  /** s is the set {0, ..., n-1}. */
  ghost predicate IsUpto(s: set<nat>, n: nat) {
    forall i: nat :: i in s <==> i < n
  }

  lemma {:induction false} UptoSize(s: set<nat>, n: nat)
    requires IsUpto(s, n)
    ensures |s| == n
  {
    if n == 0 {
      assert s == {};
    } else {
      UptoSize(s - {n - 1}, n - 1);
    }
  }

  /** The block part of a span as a value: its class, and which of its blocks are free. */
  datatype Blocks = Blocks(cls: int, size: nat, count: nat, free: set<nat>)

  /** The block part of span_t: what the thread that owns the span works on. The page part (the links
      to neighbours and to the pool, base and page count) belongs to the page heap. */
  class Span {
    // where the record is
    const address: nat

    var isInitialized: bool

    var sizeClass: int
    var blockSize: nat
    var blockCount: nat
    var freeCount: nat
    var nonfull: Word
    // an array inside the struct, so it belongs to this record alone
    var blockBitmap: seq<Word>

    var nextInClass: nat
    var prevInClass: nat

    /** A fresh record: no field but the bitmap's extent is known. */
    constructor (address: nat)
      ensures this.address == address
    {
      this.address := address;
      blockBitmap := seq(BITMAP_WORDS, _ => 0);
    }

    /** The free blocks. */
    ghost function Free(): set<nat>
      reads this`blockBitmap
    {
      FreeSet(blockBitmap)
    }

    ghost predicate BlocksOk()
      reads this`nonfull, this`blockBitmap, this`blockSize, this`blockCount, this`freeCount
    {
      Summarises(nonfull, blockBitmap) &&
      0 < blockSize && 0 < blockCount <= MAX_SPAN_BLOCK_COUNT &&
      (forall i :: i in Free() ==> i < blockCount) &&
      freeCount == |Free()|
    }

    /** The record is in order and says what the value says. */
    ghost predicate Shows(b: Blocks)
      reads this`nonfull, this`blockBitmap, this`blockSize, this`blockCount, this`freeCount, this`isInitialized,
            this`sizeClass
    {
      BlocksOk() && isInitialized && b == Blocks(sizeClass, blockSize, blockCount, Free())
    }

    /** src/span.h:54-69 */
    method AllocateBlock(base: nat) returns (ptr: nat, ghost index: nat)
      requires BlocksOk()
      modifies this`freeCount, this`nonfull, this`blockBitmap
      ensures BlocksOk()
      ensures old(Free()) == {} ==> ptr == 0 && Free() == {}
      ensures old(Free()) != {} ==>
        index in old(Free()) && (forall j :: j in old(Free()) ==> index <= j) &&
        Free() == old(Free()) - {index} && ptr == BlockAddress(base, index, blockSize)
    {
      if nonfull == 0 {
        TwoLevelMinimum(nonfull, blockBitmap, 0, 0);
        return 0, 0;
      }
      var blockIndex := TakeLeast();
      return BlockAddress(base, blockIndex, blockSize), blockIndex;
    }

    /** The bitmap part of AllocateBlock: find the least free index and clear its bit. */
    method TakeLeast() returns (blockIndex: nat)
      requires BlocksOk() && nonfull != 0
      modifies this`freeCount, this`nonfull, this`blockBitmap
      ensures BlocksOk()
      ensures blockIndex in old(Free()) && forall j :: j in old(Free()) ==> blockIndex <= j
      ensures Free() == old(Free()) - {blockIndex}
    {
      var wordIndex := LowestBit(nonfull);
      var word := blockBitmap[wordIndex];
      var bitIndex := LowestBit(word);
      TwoLevelMinimum(nonfull, blockBitmap, wordIndex, bitIndex);
      blockIndex := bitIndex + wordIndex * BITS_PER_WORD;

      freeCount := freeCount - 1;
      ghost var n, words := nonfull, blockBitmap;
      word := WithoutBit(word, blockIndex % 64);
      blockBitmap := blockBitmap[wordIndex := word];
      if blockBitmap[wordIndex] == 0 {
        nonfull := WithoutBit(nonfull, wordIndex % 64);
      }
      RemoveBlock(n, words, wordIndex, bitIndex, word, nonfull);
    }

    /** src/span.h:73-81. Any address inside block i frees block i. */
    method FreeBlock(base: nat, block: nat, ghost i: nat)
      requires BlocksOk()
      requires i < blockCount && i !in Free()
      requires InBlock(base, i, blockSize, block)
      modifies this`freeCount, this`nonfull, this`blockBitmap
      ensures BlocksOk()
      ensures Free() == old(Free()) + {i}
    {
      BlockOfAddress(base, block, blockSize, i);
      var relAddress := block - base;
      var blockIndex := Quotient(relAddress, blockSize);
      PutBack(blockIndex);
    }

    /** The bitmap part of FreeBlock: set the bit of the index. */
    method PutBack(blockIndex: nat)
      requires BlocksOk() && blockIndex < blockCount && blockIndex !in Free()
      modifies this`freeCount, this`nonfull, this`blockBitmap
      ensures BlocksOk()
      ensures Free() == old(Free()) + {blockIndex}
    {
      freeCount := freeCount + 1;
      var wordIndex := blockIndex / 64;
      ghost var n, words := nonfull, blockBitmap;
      var word := WithBit(blockBitmap[wordIndex], blockIndex % 64);
      blockBitmap := blockBitmap[wordIndex := word];
      nonfull := WithBit(nonfull, wordIndex);
      AddBlock(n, words, wordIndex, blockIndex % 64, word, nonfull);
    }

    /** src/span.c:212-237: mark the span initialised with all its blocks free. */
    method InitializeBlocks(cls: int, size: nat, count: nat)
      requires size > 0 && 0 < count <= MAX_SPAN_BLOCK_COUNT
      modifies this`isInitialized, this`sizeClass, this`blockSize, this`blockCount,
               this`freeCount, this`nonfull, this`blockBitmap
      ensures BlocksOk()
      ensures IsUpto(Free(), count)
      ensures isInitialized && sizeClass == cls && blockSize == size && blockCount == count
    {

      blockSize := size;
      blockCount := count;
      isInitialized := true;
      sizeClass := cls;
      freeCount := blockCount;

      var wordCount := (blockCount + (BITS_PER_WORD - 1)) / BITS_PER_WORD;
      var blocksInLastWord := blockCount - (wordCount - 1) * BITS_PER_WORD;

      nonfull := 0;
      blockBitmap := seq(BITMAP_WORDS, _ => 0);
      ZeroIsEmpty(0);

      for wordIndex := 0 to wordCount
        invariant isInitialized && sizeClass == cls && blockSize == size && freeCount == blockCount == count
        invariant Summarises(nonfull, blockBitmap)
        invariant forall w: nat :: w < wordIndex ==> IsInitialWord(w, count, blockBitmap[w])
        invariant forall w: nat :: wordIndex <= w < BITMAP_WORDS ==> blockBitmap[w] == 0
      {
        var freeBlocks: Word;
        if wordIndex == wordCount - 1 && blocksInLastWord < BITS_PER_WORD {
          freeBlocks := LowBits(blocksInLastWord);
        } else {
          freeBlocks := LowBits(BITS_PER_WORD);
        }
        assert IsInitialWord(wordIndex, count, freeBlocks);
        blockBitmap := blockBitmap[wordIndex := freeBlocks];
        nonfull := WithBit(nonfull, wordIndex);
      }
      InitialFree(blockBitmap, blockCount, wordCount);
      UptoSize(Free(), blockCount);
    }
  }

  /** Word w of a bitmap in which the first `count` blocks are free. */
  ghost predicate IsInitialWord(w: nat, count: nat, word: Word) {
    forall b: nat :: b in Ones(word) <==> b < 64 && 64 * w + b < count
  }

  lemma {:induction false} InitialFree(words: seq<Word>, count: nat, n: nat)
    requires |words| == BITMAP_WORDS && n <= BITMAP_WORDS && count <= 64 * n
    requires forall w: nat :: w < n ==> IsInitialWord(w, count, words[w])
    requires forall w: nat :: n <= w < BITMAP_WORDS ==> words[w] == 0
    ensures IsUpto(FreeSet(words), count)
  {
    ZeroIsEmpty(0);
    forall i: nat ensures i in FreeSet(words) <==> i < count {
      if i / 64 < n { assert IsInitialWord(i / 64, count, words[i / 64]); }
    }
  }
}
