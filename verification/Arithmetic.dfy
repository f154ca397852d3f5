/**
 Integer quotients and remainders, and a few other facts about plain numbers and lists. Each lemma
 speaks of variables only, so that products stay out of the proofs that use it.
 */
module Arithmetic {

  function Min(a: int, b: int): int { if a <= b then a else b }

  predicate AllDistinct<T(==)>(s: seq<T>) {
    forall i, j | 0 <= i < j < |s| :: s[i] != s[j]
  }

  // ----- products -----

  lemma PositiveProduct(n: nat, m: nat)
    requires n > 0 && m > 0
    ensures n * m > 0
  {
  }

  lemma ProductGrows(a: nat, b: nat, m: nat)
    requires a <= b
    ensures a * m <= b * m
  {
  }

  lemma Associate(a: int, b: int, c: int)
    ensures (a * b) * c == a * (b * c)
  {
  }

  lemma Distribute(a: int, b: int, m: int)
    ensures (a + b) * m == a * m + b * m
    ensures (a - b) * m == a * m - b * m
  {
  }

  lemma Below(a: nat, b: nat, n: nat, m: nat)
    requires a < n && b < m
    ensures a * m + b < n * m
  {
    assert (a + 1) * m <= n * m;
    assert (a + 1) * m == a * m + m;
  }

  lemma QuotientBelow(a: nat, k: nat, n: nat, rest: nat)
    requires a * n + rest < k * n
    ensures a < k
  {
    assert (k - a) * n > 0;
  }

  // ----- quotients and remainders -----

  lemma DivMod(k: nat, n: nat)
    requires n > 0
    ensures k == (k / n) * n + k % n && 0 <= k / n && 0 <= k % n < n
  {
  }

  lemma DivModUnique(k: int, n: int, q: int, r: int)
    requires n > 0 && k == q * n + r && 0 <= r < n
    ensures k / n == q && k % n == r
  {
    var d := k / n - q;
    assert d * n == (k / n) * n - q * n == r - k % n;
    assert d < 1 && d > -1;
  }

  lemma DivModOfPair(i: nat, j: nat, n: nat)
    requires j < n
    ensures (i * n + j) / n == i
    ensures (i * n + j) % n == j
  {
    assert i * n + j == n * i + j;
    DivModUnique(i * n + j, n, i, j);
  }

  lemma DivBelow(k: nat, n: nat, m: nat)
    requires m > 0 && k < n * m
    ensures k / m < n && k % m < m
  {
    DivMod(k, m);
    QuotientBelow(k / m, n, m, k % m);
  }

  lemma ModShift(k: nat, n: nat)
    requires k >= n > 0
    ensures (k - n) % n == k % n && (k - n) / n + 1 == k / n
  {
    DivMod(k - n, n);
    DivModUnique(k, n, (k - n) / n + 1, (k - n) % n);
  }

  lemma ModSmall(k: nat, n: nat)
    requires 0 < k <= n
    ensures k % n == if k == n then 0 else k
  {
    DivModUnique(k, n, if k == n then 1 else 0, if k == n then 0 else k);
  }

  /** The quotient rounded up. */
  function CeilDiv(a: nat, b: nat): nat
    requires b > 0
  {
    (a + b - 1) / b
  }

  lemma CeilDivCovers(a: nat, b: nat, i: nat)
    requires b > 0 && i < a
    ensures i / b < CeilDiv(a, b)
    ensures (i / b) * b <= i < (i / b) * b + b
  {
    DivMod(i, b);
    CeilDivEnough(a, b);
    QuotientBelow(i / b, CeilDiv(a, b), b, i % b);
  }

  lemma CeilDivEnough(a: nat, b: nat)
    requires b > 0
    ensures a <= CeilDiv(a, b) * b < a + b
  {
    DivMod(a + b - 1, b);
  }
}
