/** 64-bit machine words as naturals below 2^64, and the bit operations the
    allocator performs on them, each defined on binary digits. */
module Words {
  const WORD_LIMIT: nat := 0x1_0000_0000_0000_0000
  const MAX_WORD: Word := WORD_LIMIT - 1

  type Word = w: nat | w < WORD_LIMIT

  /** Bit i of w, bit 0 being the least significant one. */
  predicate Bit(w: nat, i: nat) {
    if i == 0 then w % 2 == 1 else Bit(w / 2, i - 1)
  }

  function Digit(b: bool): nat {
    if b then 1 else 0
  }

  /** x | y */
  function Or(x: nat, y: nat): nat {
    if x == 0 && y == 0 then 0
    else Digit(x % 2 == 1 || y % 2 == 1) + 2 * Or(x / 2, y / 2)
  }

  /** x & y */
  function And(x: nat, y: nat): nat {
    if x == 0 then 0
    else Digit(x % 2 == 1 && y % 2 == 1) + 2 * And(x / 2, y / 2)
  }

  /** x & ~y */
  function AndNot(x: nat, y: nat): nat {
    if x == 0 then 0
    else Digit(x % 2 == 1 && y % 2 == 0) + 2 * AndNot(x / 2, y / 2)
  }

  function Pow2(n: nat): (p: nat)
    ensures p > 0
  {
    if n == 0 then 1 else 2 * Pow2(n - 1)
  }

  /** w << n on 64 bits: bits shifted out at the top are lost. */
  function Shl(w: Word, n: nat): Word {
    if n == 0 then w else (2 * Shl(w, n - 1)) % WORD_LIMIT
  }

  /** The number of trailing zero bits; like __builtin_ctzll, undefined at 0. */
  function Ctz(w: nat): (n: nat)
    requires w != 0
    ensures Bit(w, n) && forall i: nat :: i < n ==> !Bit(w, i)
  {
    if w % 2 == 1 then 0 else 1 + Ctz(w / 2)
  }

  /** A 64-bit word as the set of the positions of its set bits. */
  ghost function Ones(w: Word): set<nat> {
    set i: nat | i < 64 && Bit(w, i)
  }

  /** The bits of a 64-bit word are below 64. */
  lemma {:induction false} WordOnes(w: Word)
    ensures forall i: nat :: i in Ones(w) <==> i < 64 && Bit(w, i)
    ensures forall i: nat :: i >= 64 ==> !Bit(w, i)
  {
    WordLimitIsPow2();
    BitBound(w, 64);
  }

  lemma {:induction false} BitZero(i: nat)
    ensures !Bit(0, i)
  {
    if i > 0 { BitZero(i - 1); }
  }

  lemma {:induction false} BitOr(x: nat, y: nat, i: nat)
    ensures Bit(Or(x, y), i) == (Bit(x, i) || Bit(y, i))
  {
    if x == 0 && y == 0 {
      BitZero(i);
    } else if i > 0 {
      BitOr(x / 2, y / 2, i - 1);
    }
  }

  lemma {:induction false} BitAnd(x: nat, y: nat, i: nat)
    ensures Bit(And(x, y), i) == (Bit(x, i) && Bit(y, i))
  {
    if x == 0 {
      BitZero(i);
    } else if i > 0 {
      BitAnd(x / 2, y / 2, i - 1);
    }
  }

  lemma {:induction false} BitAndNot(x: nat, y: nat, i: nat)
    ensures Bit(AndNot(x, y), i) == (Bit(x, i) && !Bit(y, i))
  {
    if x == 0 {
      BitZero(i);
    } else if i > 0 {
      BitAndNot(x / 2, y / 2, i - 1);
    }
  }

  lemma {:induction false} BitPow2(n: nat, i: nat)
    ensures Bit(Pow2(n), i) == (i == n)
  {
    if n == 0 {
      if i > 0 { BitZero(i - 1); }
    } else if i > 0 {
      BitPow2(n - 1, i - 1);
    }
  }

  /** The word 2^n - 1 has exactly its n low bits set. */
  lemma {:induction false} BitLowMask(n: nat, i: nat)
    ensures Bit(Pow2(n) - 1, i) == (i < n)
  {
    if n == 0 {
      BitZero(i);
    } else if i > 0 {
      assert (Pow2(n) - 1) / 2 == Pow2(n - 1) - 1;
      BitLowMask(n - 1, i - 1);
    }
  }

  /** A number below 2^n has no bit at or above n; with no bit below n either, it is 0. */
  lemma {:induction false} BitBound(w: nat, n: nat)
    requires w < Pow2(n)
    ensures forall i: nat :: n <= i ==> !Bit(w, i)
    ensures w != 0 ==> exists i: nat :: i < n && Bit(w, i)
  {
    if w == 0 {
      forall i: nat | n <= i ensures !Bit(w, i) { BitZero(i); }
    } else {
      assert n > 0;
      BitBound(w / 2, n - 1);
      forall i: nat | n <= i ensures !Bit(w, i) { assert Bit(w, i) == Bit(w / 2, i - 1); }
      if w % 2 == 1 {
        assert Bit(w, 0);
      } else {
        var j: nat :| j < n - 1 && Bit(w / 2, j);
        assert Bit(w, j + 1);
      }
    }
  }

  lemma {:induction false} OrBound(x: nat, y: nat, n: nat)
    requires x < Pow2(n) && y < Pow2(n)
    ensures Or(x, y) < Pow2(n)
  {
    if n > 0 && (x > 0 || y > 0) { OrBound(x / 2, y / 2, n - 1); }
  }

  lemma {:induction false} AndNotBound(x: nat, y: nat)
    ensures AndNot(x, y) <= x
  {
    if x > 0 { AndNotBound(x / 2, y / 2); }
  }

  lemma {:induction false} AndBound(x: nat, y: nat)
    ensures And(x, y) <= x
  {
    if x > 0 { AndBound(x / 2, y / 2); }
  }

  lemma WordLimitIsPow2()
    ensures Pow2(64) == WORD_LIMIT
  {
    assert Pow2(8) == 256 by { assert Pow2(4) == 16; Pow2Add(4, 4); }
    assert Pow2(16) == 0x1_0000 by { Pow2Add(8, 8); }
    assert Pow2(32) == 0x1_0000_0000 by { Pow2Add(16, 16); }
    assert Pow2(64) == 0x1_0000_0000_0000_0000 by { Pow2Add(32, 32); }
  }

  lemma {:induction false} Pow2Add(m: nat, n: nat)
    ensures Pow2(m + n) == Pow2(m) * Pow2(n)
  {
    if n > 0 {
      Pow2Add(m, n - 1);
      TwiceProduct(Pow2(m), Pow2(n - 1));
    }
  }

  lemma {:induction false} TwiceProduct(a: nat, b: nat)
    ensures a * (2 * b) == 2 * (a * b)
  {}

  /** A bit of a word survives truncation to 64 bits. */
  lemma {:induction false} BitTruncate(w: nat, n: nat, i: nat)
    requires i < n
    ensures Bit(w % Pow2(n), i) == Bit(w, i)
  {
    TruncatePow2(w, n);
    if i > 0 { BitTruncate(w / 2, n - 1, i - 1); }
    BitDouble(w % 2, w / 2 % Pow2(n - 1), i);
    assert i > 0 ==> Bit(w, i) == Bit(w / 2, i - 1);
  }

  lemma {:induction false} TruncatePow2(w: nat, n: nat)
    requires n > 0
    ensures w % Pow2(n) == w % 2 + 2 * (w / 2 % Pow2(n - 1))
  {
    TruncateHalf(w, Pow2(n - 1));
  }

  lemma {:induction false} BitDouble(b: nat, r: nat, i: nat)
    requires b < 2
    ensures Bit(b + 2 * r, i) == if i == 0 then b == 1 else Bit(r, i - 1)
  {
    assert (b + 2 * r) / 2 == r && (b + 2 * r) % 2 == b;
  }

  lemma {:induction false} TruncateHalf(w: nat, p: nat)
    requires p > 0
    ensures w % (2 * p) == w % 2 + 2 * (w / 2 % p)
  {
    var h := w / 2;
    var q, r := h / p, h % p;
    assert w == q * (2 * p) + (w % 2 + 2 * r);
    ModUnique(w, 2 * p, q, w % 2 + 2 * r);
  }

  /** Division with remainder is unique. */
  lemma {:induction false} ModUnique(w: nat, d: nat, q: nat, r: nat)
    requires d > 0 && w == q * d + r && r < d
    ensures w / d == q && w % d == r
  {
    var q', r' := w / d, w % d;
    assert w == q' * d + r' by { DivMod(w, d); }
    assert q * d - q' * d == r' - r;
    if q > q' {
      MulGap(q, q', d);
    } else if q < q' {
      MulGap(q', q, d);
    }
  }

  lemma {:induction false} DivMod(w: nat, d: nat)
    requires d > 0
    ensures w == w / d * d + w % d
  {}

  lemma {:induction false} MulGap(a: nat, b: nat, d: nat)
    requires a > b
    ensures a * d - b * d >= d
  {
    var k := a - b - 1;
    assert (b + k + 1) * d == b * d + k * d + d;
    assert k * d >= 0;
  }

  lemma {:induction false} BitShl(w: Word, n: nat, i: nat)
    requires i < 64
    ensures Bit(Shl(w, n), i) == (n <= i && Bit(w, i - n))
  {
    if n > 0 {
      var s: nat := Shl(w, n - 1);
      WordLimitIsPow2();
      BitTruncate(2 * s, 64, i);
      if i > 0 { BitShl(w, n - 1, i - 1); }
    }
  }

  lemma {:induction false} ShlOne(n: nat)
    requires n < 64
    ensures Shl(1, n) == Pow2(n)
  {
    if n > 0 {
      ShlOne(n - 1);
      Pow2Mono(n, 63);
      WordLimitIsPow2();
      assert Pow2(64) == 2 * Pow2(63);
    }
  }

  lemma {:induction false} Pow2Mono(m: nat, n: nat)
    requires m <= n
    ensures Pow2(m) <= Pow2(n)
  {
    if m < n { Pow2Mono(m, n - 1); }
  }

  /** Clearing the low bits of x with ~(2^n - 1) rounds x down to a multiple of 2^n. */
  lemma {:induction false} AndNotMask(x: nat, n: nat)
    ensures AndNot(x, Pow2(n) - 1) == x - x % Pow2(n)
  {
    if n == 0 {
      AndNotZero(x);
    } else if x > 0 {
      var p := Pow2(n - 1);
      var r := x / 2 % p;
      assert AndNot(x / 2, p - 1) == x / 2 - r by { AndNotMask(x / 2, n - 1); }
      assert x % (2 * p) == x % 2 + 2 * r by { TruncateHalf(x, p); }
      AndNotOdd(x, p);
    } else {
      ModUnique(0, Pow2(n), 0, 0);
    }
  }

  lemma {:induction false} AndNotOdd(x: nat, p: nat)
    requires x > 0 && p > 0
    ensures AndNot(x, 2 * p - 1) == 2 * AndNot(x / 2, p - 1)
  {
    assert (2 * p - 1) % 2 == 1 && (2 * p - 1) / 2 == p - 1;
  }

  lemma {:induction false} AndNotZero(x: nat)
    ensures AndNot(x, 0) == x
  {
    if x > 0 { AndNotZero(x / 2); }
  }

  /** word | (1 << i) adds i to the set of set bits. */
  method WithBit(w: Word, i: nat) returns (r: Word)
    requires i < 64
    ensures Ones(r) == Ones(w) + {i} && r != 0
  {
    SetBit(w, i);
    r := Or(w, Shl(1, i));
    ZeroIsEmpty(r);
  }

  lemma {:induction false} SetBit(w: Word, i: nat)
    requires i < 64
    ensures Or(w, Shl(1, i)) < WORD_LIMIT
    ensures Ones(Or(w, Shl(1, i))) == Ones(w) + {i}
  {
    ShlOne(i);
    WordLimitIsPow2();
    var m := Shl(1, i);
    OrBound(w, m, 64);
    WordOnes(w);
    WordOnes(Or(w, m));
    forall j: nat ensures Bit(Or(w, m), j) == (Bit(w, j) || j == i) {
      BitOr(w, m, j);
      BitPow2(i, j);
    }
  }

  /** word & ~(1 << i) removes i from the set of set bits. */
  method WithoutBit(w: Word, i: nat) returns (r: Word)
    requires i < 64
    ensures Ones(r) == Ones(w) - {i}
  {
    ClearBit(w, i);
    r := AndNot(w, Shl(1, i));
  }

  lemma {:induction false} ClearBit(w: Word, i: nat)
    requires i < 64
    ensures AndNot(w, Shl(1, i)) < WORD_LIMIT
    ensures Ones(AndNot(w, Shl(1, i))) == Ones(w) - {i}
  {
    ShlOne(i);
    var m := Shl(1, i);
    AndNotBound(w, m);
    WordOnes(w);
    WordOnes(AndNot(w, m));
    forall j: nat ensures Bit(AndNot(w, m), j) == (Bit(w, j) && j != i) {
      BitAndNot(w, m, j);
      BitPow2(i, j);
    }
  }

  /** word & (UINT64_MAX << i) keeps exactly the bits at or above i. */
  method FromBit(w: Word, i: nat) returns (r: Word)
    requires i < 64
    ensures forall j: nat :: j in Ones(r) <==> j in Ones(w) && i <= j
  {
    hide And, Shl, Ones;
    KeepFrom(w, i);
    r := And(w, Shl(MAX_WORD, i));
  }

  lemma {:induction false} KeepFrom(w: Word, i: nat)
    requires i < 64
    ensures And(w, Shl(MAX_WORD, i)) < WORD_LIMIT
    ensures forall j: nat {:trigger j in Ones(And(w, Shl(MAX_WORD, i)))} ::
      j in Ones(And(w, Shl(MAX_WORD, i))) <==> j in Ones(w) && i <= j
  {
    var m := Shl(MAX_WORD, i);
    AndBound(w, m);
    WordOnes(w);
    WordOnes(And(w, m));
    forall j: nat | j < 64 ensures Bit(And(w, m), j) == (Bit(w, j) && i <= j) {
      BitAnd(w, m, j);
      BitShl(MAX_WORD, i, j);
      if i <= j {
        WordLimitIsPow2();
        BitLowMask(64, j - i);
      }
    }
  }

  /** __builtin_ctzll(word) is the least set bit. */
  method LowestBit(w: Word) returns (n: nat)
    requires w != 0
    ensures n < 64 && n in Ones(w) && forall j :: j in Ones(w) ==> n <= j
  {
    CtzIsLeast(w);
    n := Ctz(w);
  }

  lemma {:induction false} CtzIsLeast(w: Word)
    requires w != 0
    ensures Ctz(w) < 64 && Ctz(w) in Ones(w) && forall j :: j in Ones(w) ==> Ctz(w) <= j
  {
    WordLimitIsPow2();
    BitBound(w, 64);
    WordOnes(w);
  }

  /** A word is zero exactly when it has no set bit. */
  lemma {:induction false} ZeroIsEmpty(w: Word)
    ensures w == 0 <==> Ones(w) == {}
  {
    WordOnes(w);
    if w == 0 {
      forall i: nat ensures !Bit(w, i) { BitZero(i); }
    } else {
      CtzIsLeast(w);
    }
  }

  /** (1 << n) - 1, or UINT64_MAX for n = 64: the n low bits. */
  function LowMask(n: nat): Word
    requires n <= 64
  {
    if n < 64 then ShlOne(n); Shl(1, n) - 1 else MAX_WORD
  }

  method LowBits(n: nat) returns (r: Word)
    requires n <= 64
    ensures forall i: nat :: i in Ones(r) <==> i < n
    ensures n > 0 ==> r != 0
  {
    LowOnes(n);
    r := LowMask(n);
    ZeroIsEmpty(r);
    assert n > 0 ==> 0 in Ones(r);
  }

  lemma {:induction false} LowOnes(n: nat)
    requires n <= 64
    ensures forall i: nat :: i in Ones(LowMask(n)) <==> i < n
  {
    if n < 64 { ShlOne(n); }
    WordLimitIsPow2();
    var m: nat := LowMask(n);
    assert m == Pow2(n) - 1;
    WordOnes(m);
    forall i: nat ensures Bit(m, i) <==> i < n { BitLowMask(n, i); }
  }
}
