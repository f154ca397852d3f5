/**
 Finite sums of reals over an initial segment of the naturals: the algebra that the
 gradient averages, the convolutions and the row splits below are proved with.
 */
module Sums {
  import opened Arithmetic

  function Sum(n: nat, f: int -> real): real {
    if n == 0 then 0.0 else Sum(n - 1, f) + f(n - 1)
  }

  /** The last term of a sum, for proofs that hide the rest of it. */
  lemma SumUnfolds(n: nat, f: int -> real)
    ensures Sum(n, f) == if n == 0 then 0.0 else Sum(n - 1, f) + f(n - 1)
  {
  }

  lemma {:induction false} SumCongruence(n: nat, f: int -> real, g: int -> real)
    requires forall i: int | 0 <= i < n :: f(i) == g(i)
    ensures Sum(n, f) == Sum(n, g)
  {
    if n > 0 {
      SumCongruence(n - 1, f, g);
    }
  }

  lemma {:induction false} SumAdd(n: nat, f: int -> real, g: int -> real, h: int -> real)
    requires forall i: int | 0 <= i < n :: h(i) == f(i) + g(i)
    ensures Sum(n, h) == Sum(n, f) + Sum(n, g)
  {
    if n > 0 {
      SumAdd(n - 1, f, g, h);
    }
  }

  lemma {:induction false} SumScale(n: nat, c: real, f: int -> real, h: int -> real)
    requires forall i: int | 0 <= i < n :: h(i) == c * f(i)
    ensures Sum(n, h) == c * Sum(n, f)
  {
    if n > 0 {
      SumScale(n - 1, c, f, h);
    }
  }

  /** Multiplication by name, for proofs that need only some of its laws. */
  function Times(x: real, y: real): real { x * y }

  lemma SumTimes(n: nat, x: real, f: int -> real, h: int -> real)
    requires forall i | 0 <= i < n :: h(i) == Times(x, f(i))
    ensures Sum(n, h) == Times(x, Sum(n, f))
  {
    SumScale(n, x, f, h);
  }

  lemma TimesLaws(x: real, y: real, z: real)
    ensures Times(x, y) == Times(y, x)
    ensures Times(x, y + z) == Times(x, y) + Times(x, z)
    ensures Times(Times(x, y), z) == Times(x, Times(y, z))
    ensures Times(0.0, x) == 0.0 == Times(x, 0.0) && Times(1.0, x) == x
  {
  }

  lemma {:induction false} SumZero(n: nat, f: int -> real)
    requires forall i: int | 0 <= i < n :: f(i) == 0.0
    ensures Sum(n, f) == 0.0
  {
    if n > 0 {
      SumZero(n - 1, f);
    }
  }

  /** Only one term of the sum differs from zero. */
  lemma {:induction false} SumSingle(n: nat, at: nat, f: int -> real)
    requires at < n
    requires forall i: int | 0 <= i < n && i != at :: f(i) == 0.0
    ensures Sum(n, f) == f(at)
  {
    if at == n - 1 {
      SumZero(n - 1, f);
    } else {
      SumSingle(n - 1, at, f);
    }
  }

  lemma {:induction false} SumSplit(m: nat, n: nat, f: int -> real, tail: int -> real)
    requires forall i: int | 0 <= i < n :: tail(i) == f(m + i)
    ensures Sum(m + n, f) == Sum(m, f) + Sum(n, tail)
  {
    if n > 0 {
      SumSplit(m, n - 1, f, tail);
      assert m + n - 1 == m + (n - 1);
    }
  }

  /** The order of two nested sums does not matter. */
  lemma {:induction false} SumSwap(m: nat, n: nat, f: (int, int) -> real)
    ensures Sum(m, i => Sum(n, j => f(i, j))) == Sum(n, j => Sum(m, i => f(i, j)))
  {
    if m == 0 {
      SumZero(n, j => Sum(m, i => f(i, j)));
    } else {
      var last := (j: int) => f(m - 1, j);
      var shorter := (j: int) => Sum(m - 1, i => f(i, j));
      var full := (j: int) => Sum(m, i => f(i, j));
      SumSwap(m - 1, n, f);
      SumCongruence(n, j => f(m - 1, j), last);
      SumAdd(n, shorter, last, full);
    }
  }

  ghost predicate Permutes(n: nat, p: int -> int) {
    && (forall i | 0 <= i < n :: 0 <= p(i) < n)
    && (forall i, j | 0 <= i < j < n :: p(i) != p(j))
    && (forall m | 0 <= m < n :: Attained(n, p, m))
  }

  ghost predicate Attained(n: nat, p: int -> int, m: int) {
    exists i :: 0 <= i < n && p(i) == m
  }

  /** The order of the terms does not matter. */
  lemma SumPermuted(n: nat, p: int -> int, f: int -> real, g: int -> real)
    requires Permutes(n, p) && forall i | 0 <= i < n :: g(i) == f(p(i))
    ensures Sum(n, g) == Sum(n, f)
  {
    var cell := (i: int, m: int) => if p(i) == m then f(m) else 0.0;
    var row := (i: int) => Sum(n, m => cell(i, m));
    var column := (m: int) => Sum(n, i => cell(i, m));
    forall i | 0 <= i < n ensures row(i) == g(i) {
      SumSingle(n, p(i), m => cell(i, m));
    }
    forall m | 0 <= m < n ensures column(m) == f(m) {
      assert Attained(n, p, m);
      var i :| 0 <= i < n && p(i) == m;
      SumSingle(n, i, i => cell(i, m));
    }
    SumCongruence(n, row, g);
    SumCongruence(n, column, f);
    SumSwap(n, n, cell);
  }

  /** A sum over a flattened index is the nested sum over its quotient and remainder. */
  lemma {:induction false} SumFlatten(m: nat, n: nat, f: (int, int) -> real, flat: int -> real)
    requires n > 0
    requires forall i: int, j: int | 0 <= i < m && 0 <= j < n :: flat(i * n + j) == f(i, j)
    ensures Sum(m * n, flat) == Sum(m, i => Sum(n, j => f(i, j)))
  {
    if m > 0 {
      var last := (j: int) => f(m - 1, j);
      SumFlatten(m - 1, n, f, flat);
      assert (m - 1) * n + n == m * n;
      SumSplit((m - 1) * n, n, flat, last);
      SumCongruence(n, j => f(m - 1, j), last);
    }
  }
}
