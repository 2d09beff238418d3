/** Products and quotients of sizes, computed by repeated addition and subtraction so that proofs
    about addresses stay linear, and tied to the operators by TimesIsProduct and QuotientIsDivision. */
module Linear {
  import opened Words

  /** n * d */
  function Times(n: nat, d: nat): nat {
    if n == 0 then 0 else Times(n - 1, d) + d
  }

  /** x / d */
  function Quotient(x: nat, d: nat): nat
    requires d > 0
  {
    if x < d then 0 else 1 + Quotient(x - d, d)
  }

  lemma {:induction false} TimesIsProduct(n: nat, d: nat)
    ensures Times(n, d) == n * d
  {
    if n > 0 {
      TimesIsProduct(n - 1, d);
      assert (n - 1) * d + d == n * d;
    }
  }

  lemma {:induction false} QuotientIsDivision(x: nat, d: nat)
    requires d > 0
    ensures Quotient(x, d) == x / d
  {
    if x >= d {
      QuotientIsDivision(x - d, d);
      var q := (x - d) / d;
      DivMod(x - d, d);
      assert (q + 1) * d == q * d + d;
      ModUnique(x, d, q + 1, (x - d) % d);
    } else {
      ModUnique(x, d, 0, x);
    }
  }

  lemma {:induction false} TimesAdd(m: nat, n: nat, d: nat)
    ensures Times(m + n, d) == Times(m, d) + Times(n, d)
  {
    if n > 0 { TimesAdd(m, n - 1, d); }
  }

  /** Multiples of d are at least d apart. */
  lemma {:induction false} TimesGap(m: nat, n: nat, d: nat)
    requires m < n
    ensures Times(m, d) + d <= Times(n, d)
  {
    if m + 1 < n { TimesGap(m, n - 1, d); }
  }

  lemma {:induction false} TimesWider(n: nat, d: nat, e: nat)
    requires d <= e
    ensures Times(n, d) <= Times(n, e)
  {
    if n > 0 { TimesWider(n - 1, d, e); }
  }

  /** A number in the n-th interval of length d divides to n. */
  lemma {:induction false} QuotientOf(x: nat, n: nat, d: nat)
    requires d > 0 && Times(n, d) <= x < Times(n, d) + d
    ensures Quotient(x, d) == n
  {
    if n > 0 { QuotientOf(x - d, n - 1, d); }
  }

  /** Every number lies in the interval of its quotient. */
  lemma {:induction false} QuotientBounds(x: nat, d: nat)
    requires d > 0
    ensures Times(Quotient(x, d), d) <= x < Times(Quotient(x, d), d) + d
  {
    if x >= d { QuotientBounds(x - d, d); }
  }
}
