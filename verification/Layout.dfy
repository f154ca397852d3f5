/**
 Row-major positions: a triple (a, b, c) with b < n and c < m stands at (a * n + b) * m + c, and
 division and remainder give the triple back. Gathers, reshapes and flattened sums rest on this.
 */
module Layout {
  import opened Arithmetic
  import opened Sums

  function Flat(n: nat, m: nat, a: nat, b: nat, c: nat): nat {
    (a * n + b) * m + c
  }

  function Hi(n: nat, m: nat, r: nat): nat
    requires n > 0 && m > 0
  {
    PositiveProduct(n, m);
    r / (n * m)
  }

  function Mid(n: nat, m: nat, r: nat): nat
    requires n > 0 && m > 0
  {
    PositiveProduct(n, m);
    (r % (n * m)) / m
  }

  function Lo(n: nat, m: nat, r: nat): nat
    requires n > 0 && m > 0
  {
    PositiveProduct(n, m);
    (r % (n * m)) % m
  }

  /** Flattening and taking apart are inverse, and stay in range. */
  lemma PartsOfFlat(k: nat, n: nat, m: nat, a: nat, b: nat, c: nat)
    requires a < k && b < n && c < m
    ensures var r := Flat(n, m, a, b, c);
            Hi(n, m, r) == a && Mid(n, m, r) == b && Lo(n, m, r) == c && r < k * n * m
  {
    var inner := b * m + c;
    Below(b, c, n, m);
    FlatSplit(n, m, a, b, c);
    FlatBelow(k, n, m, a, inner);
    hide *;
    PartsOfPair(n, m, Flat(n, m, a, b, c), a, inner, b, c);
  }

  lemma FlatSplit(n: nat, m: nat, a: nat, b: nat, c: nat)
    ensures Flat(n, m, a, b, c) == a * (n * m) + (b * m + c)
  {
    Distribute(a * n, b, m);
    Associate(a, n, m);
  }

  lemma FlatBelow(k: nat, n: nat, m: nat, a: nat, inner: nat)
    requires a < k && inner < n * m
    ensures a * (n * m) + inner < k * n * m
  {
    Below(a, inner, k, n * m);
    Associate(k, n, m);
  }

  lemma PartsOfPair(n: nat, m: nat, r: nat, a: nat, inner: nat, b: nat, c: nat)
    requires n > 0 && m > 0 && r == a * (n * m) + inner && inner < n * m && inner == b * m + c && c < m
    ensures Hi(n, m, r) == a && Mid(n, m, r) == b && Lo(n, m, r) == c
  {
    DivModUnique(r, n * m, a, inner);
    DivModUnique(inner, m, b, c);
  }

  lemma FlatOfParts(k: nat, n: nat, m: nat, r: nat)
    requires n > 0 && m > 0 && r < k * n * m
    ensures Hi(n, m, r) < k && Mid(n, m, r) < n && Lo(n, m, r) < m
    ensures Flat(n, m, Hi(n, m, r), Mid(n, m, r), Lo(n, m, r)) == r
  {
    PositiveProduct(n, m);
    var a, inner := r / (n * m), r % (n * m);
    var b, c := inner / m, inner % m;
    assert r == a * (n * m) + inner;
    assert inner == b * m + c;
    assert k * (n * m) == k * n * m;
    QuotientBelow(a, k, n * m, inner);
    QuotientBelow(b, n, m, c);
    assert (a * n + b) * m == a * n * m + b * m;
    assert a * n * m == a * (n * m);
  }

  function Sum3(k: nat, n: nat, m: nat, f: (int, int, int) -> real): real {
    Sum(k, a => Sum(n, b => Sum(m, c => f(a, b, c))))
  }

  function Flattened(n: nat, m: nat, f: (int, int, int) -> real): int -> real
    requires n > 0 && m > 0
  {
    r => if r >= 0 then f(Hi(n, m, r), Mid(n, m, r), Lo(n, m, r)) else 0.0
  }

  /** The sums over the last index, by the flattened first two. */
  function PairSums(n: nat, m: nat, f: (int, int, int) -> real): int -> real
    requires n > 0
  {
    q => if q >= 0 then Sum(m, c => f(q / n, q % n, c)) else 0.0
  }

  lemma SumOfLast(k: nat, n: nat, m: nat, f: (int, int, int) -> real, flat: int -> real)
    requires n > 0 && m > 0
    requires forall r: nat | r < k * n * m :: flat(r) == f(Hi(n, m, r), Mid(n, m, r), Lo(n, m, r))
    ensures Sum(k * n * m, flat) == Sum(k * n, PairSums(n, m, f))
  {
    hide Sum, Hi, Mid, Lo;
    var two := (q: int, c: int) => if q >= 0 then f(q / n, q % n, c) else 0.0;
    forall q: int, c: int | 0 <= q < k * n && 0 <= c < m ensures flat(q * m + c) == two(q, c) {
      FlatPair(k, n, m, q, c);
    }
    SumFlatten(k * n, m, two, flat);
    forall q: int | 0 <= q < k * n ensures Sum(m, c => two(q, c)) == PairSums(n, m, f)(q) {
      SumCongruence(m, c => two(q, c), c => f(q / n, q % n, c));
    }
    SumCongruence(k * n, q => Sum(m, c => two(q, c)), PairSums(n, m, f));
  }

  /** A sum over a flattened triple is the triple sum. */
  lemma SumOfFlat(k: nat, n: nat, m: nat, f: (int, int, int) -> real, flat: int -> real)
    requires n > 0 && m > 0
    requires forall r: nat | r < k * n * m :: flat(r) == f(Hi(n, m, r), Mid(n, m, r), Lo(n, m, r))
    ensures Sum(k * n * m, flat) == Sum3(k, n, m, f)
  {
    hide Sum, Hi, Mid, Lo;
    SumOfLast(k, n, m, f, flat);
    var inner := (a: int, b: int) => Sum(m, c => f(a, b, c));
    forall a: int, b: int | 0 <= a < k && 0 <= b < n ensures PairSums(n, m, f)(a * n + b) == inner(a, b) {
      DivModOfPair(a, b, n);
    }
    SumFlatten(k, n, inner, PairSums(n, m, f));
    var nested := (a: int) => Sum(n, b => inner(a, b));
    var spelled := (a: int) => Sum(n, b => Sum(m, c => f(a, b, c)));
    forall a: int | 0 <= a < k ensures nested(a) == spelled(a) {
      SumCongruence(n, b => inner(a, b), b => Sum(m, c => f(a, b, c)));
    }
    SumCongruence(k, nested, spelled);
  }

  lemma FlatPair(k: nat, n: nat, m: nat, q: nat, c: nat)
    requires q < k * n && c < m && n > 0
    ensures var r := q * m + c;
            r < k * n * m && Hi(n, m, r) == q / n && Mid(n, m, r) == q % n && Lo(n, m, r) == c
  {
    var a, b := q / n, q % n;
    assert q == a * n + b;
    QuotientBelow(a, k, n, b);
    PartsOfFlat(k, n, m, a, b, c);
  }

  lemma SumFlattened(k: nat, n: nat, m: nat, f: (int, int, int) -> real)
    requires n > 0 && m > 0
    ensures Sum(k * n * m, Flattened(n, m, f)) == Sum3(k, n, m, f)
  {
    hide Hi, Mid, Lo, Sum;
    SumOfFlat(k, n, m, f, Flattened(n, m, f));
  }

  lemma Sum3Congruence(k: nat, n: nat, m: nat, f: (int, int, int) -> real, g: (int, int, int) -> real)
    requires forall a: int, b: int, c: int | 0 <= a < k && 0 <= b < n && 0 <= c < m :: f(a, b, c) == g(a, b, c)
    ensures Sum3(k, n, m, f) == Sum3(k, n, m, g)
  {
    hide Sum;
    var outer, other := (a: int) => Sum(n, b => Sum(m, c => f(a, b, c))), (a: int) => Sum(n, b => Sum(m, c => g(a, b, c)));
    forall a: int | 0 <= a < k ensures outer(a) == other(a) {
      var inner, same := (b: int) => Sum(m, c => f(a, b, c)), (b: int) => Sum(m, c => g(a, b, c));
      forall b: int | 0 <= b < n ensures inner(b) == same(b) {
        SumCongruence(m, c => f(a, b, c), c => g(a, b, c));
      }
      SumCongruence(n, inner, same);
    }
    SumCongruence(k, outer, other);
  }

  lemma Sum3Times(k: nat, n: nat, m: nat, x: real, f: (int, int, int) -> real, h: (int, int, int) -> real)
    requires n > 0 && m > 0
    requires forall a: int, b: int, c: int | 0 <= a < k && 0 <= b < n && 0 <= c < m :: h(a, b, c) == Times(x, f(a, b, c))
    ensures Sum3(k, n, m, h) == Times(x, Sum3(k, n, m, f))
  {
    SumFlattened(k, n, m, f);
    SumFlattened(k, n, m, h);
    hide Hi, Mid, Lo, Sum, Times;
    forall r: int | 0 <= r < k * n * m ensures Flattened(n, m, h)(r) == Times(x, Flattened(n, m, f)(r)) {
      FlatOfParts(k, n, m, r);
    }
    SumTimes(k * n * m, x, Flattened(n, m, f), Flattened(n, m, h));
  }

  /** A function of two triples, as a function of their positions. */
  function Paired(n: nat, m: nat, n2: nat, m2: nat, f: (int, int, int, int, int, int) -> real): (int, int) -> real
    requires n > 0 && m > 0 && n2 > 0 && m2 > 0
  {
    (r, q) =>
      if r >= 0 && q >= 0 then f(Hi(n, m, r), Mid(n, m, r), Lo(n, m, r), Hi(n2, m2, q), Mid(n2, m2, q), Lo(n2, m2, q))
      else 0.0
  }

  lemma SumPairedByRow(
    k: nat, n: nat, m: nat, k2: nat, n2: nat, m2: nat, f: (int, int, int, int, int, int) -> real)
    requires n > 0 && m > 0 && n2 > 0 && m2 > 0
    ensures Sum(k * n * m, r => Sum(k2 * n2 * m2, q => Paired(n, m, n2, m2, f)(r, q)))
            == Sum3(k, n, m, (a, b, c) => Sum3(k2, n2, m2, (d, e, g) => f(a, b, c, d, e, g)))
  {
    hide Hi, Mid, Lo, Sum, Sum3;
    var flat := Paired(n, m, n2, m2, f);
    var inner := (a: int, b: int, c: int) => Sum3(k2, n2, m2, (d, e, g) => f(a, b, c, d, e, g));
    var rows := (r: int) => Sum(k2 * n2 * m2, q => flat(r, q));
    forall r: nat | r < k * n * m ensures rows(r) == inner(Hi(n, m, r), Mid(n, m, r), Lo(n, m, r)) {
      var a, b, c := Hi(n, m, r), Mid(n, m, r), Lo(n, m, r);
      SumOfFlat(k2, n2, m2, (d, e, g) => f(a, b, c, d, e, g), q => flat(r, q));
    }
    SumOfFlat(k, n, m, inner, rows);
  }

  lemma SumPairedByColumn(
    k: nat, n: nat, m: nat, k2: nat, n2: nat, m2: nat, f: (int, int, int, int, int, int) -> real)
    requires n > 0 && m > 0 && n2 > 0 && m2 > 0
    ensures Sum(k2 * n2 * m2, q => Sum(k * n * m, r => Paired(n, m, n2, m2, f)(r, q)))
            == Sum3(k2, n2, m2, (d, e, g) => Sum3(k, n, m, (a, b, c) => f(a, b, c, d, e, g)))
  {
    hide Hi, Mid, Lo, Sum, Sum3;
    var flat := Paired(n, m, n2, m2, f);
    var inner := (d: int, e: int, g: int) => Sum3(k, n, m, (a, b, c) => f(a, b, c, d, e, g));
    var columns := (q: int) => Sum(k * n * m, r => flat(r, q));
    forall q: nat | q < k2 * n2 * m2 ensures columns(q) == inner(Hi(n2, m2, q), Mid(n2, m2, q), Lo(n2, m2, q)) {
      var d, e, g := Hi(n2, m2, q), Mid(n2, m2, q), Lo(n2, m2, q);
      SumOfFlat(k, n, m, (a, b, c) => f(a, b, c, d, e, g), r => flat(r, q));
    }
    SumOfFlat(k2, n2, m2, inner, columns);
  }

  /** Two nested triple sums change places. */
  lemma Sum3Swap(
    k: nat, n: nat, m: nat, k2: nat, n2: nat, m2: nat, f: (int, int, int, int, int, int) -> real)
    requires n > 0 && m > 0 && n2 > 0 && m2 > 0
    ensures Sum3(k, n, m, (a, b, c) => Sum3(k2, n2, m2, (d, e, g) => f(a, b, c, d, e, g)))
            == Sum3(k2, n2, m2, (d, e, g) => Sum3(k, n, m, (a, b, c) => f(a, b, c, d, e, g)))
  {
    hide *;
    SumPairedByRow(k, n, m, k2, n2, m2, f);
    SumPairedByColumn(k, n, m, k2, n2, m2, f);
    SumSwap(k * n * m, k2 * n2 * m2, Paired(n, m, n2, m2, f));
  }

  /** A sum that is zero outside a window is the sum over the window. */
  lemma SumWindow(total: nat, from: nat, size: nat, f: int -> real, padded: int -> real)
    requires from + size <= total
    requires forall i: int | 0 <= i < total ::
               padded(i) == if from <= i < from + size then f(i - from) else 0.0
    ensures Sum(total, padded) == Sum(size, f)
  {
    hide Sum;
    var rest := total - (from + size);
    var after := (i: int) => padded(from + size + i);
    var within := (i: int) => padded(from + i);
    SumSplit(from + size, rest, padded, after);
    SumSplit(from, size, padded, within);
    SumZero(from, padded);
    SumZero(rest, after);
    SumCongruence(size, within, f);
  }

  function WindowRow(width: nat, padded: (int, int, int) -> real, a: int): int -> real {
    h => Sum(width, w => padded(a, h, w))
  }

  function SmallRow(kw: nat, f: (int, int, int) -> real, a: int): int -> real {
    i => Sum(kw, j => f(a, i, j))
  }

  /** The same over the last two of three axes. */
  lemma Sum3Window(
    k: nat, height: nat, width: nat, top: nat, left: nat, kh: nat, kw: nat,
    f: (int, int, int) -> real, padded: (int, int, int) -> real)
    requires top + kh <= height && left + kw <= width
    requires forall a: int, h: int, w: int | 0 <= a < k && 0 <= h < height && 0 <= w < width ::
               padded(a, h, w) == if top <= h < top + kh && left <= w < left + kw then f(a, h - top, w - left) else 0.0
    ensures Sum3(k, height, width, padded) == Sum3(k, kh, kw, f)
  {
    hide Sum;
    var big, small := (a: int) => Sum(height, h => Sum(width, w => padded(a, h, w))), (a: int) => Sum(kh, i => Sum(kw, j => f(a, i, j)));
    forall a: int | 0 <= a < k ensures big(a) == small(a) {
      forall h: int | 0 <= h < height
        ensures WindowRow(width, padded, a)(h) == if top <= h < top + kh then SmallRow(kw, f, a)(h - top) else 0.0
      {
        if top <= h < top + kh {
          SumWindow(width, left, kw, j => f(a, h - top, j), w => padded(a, h, w));
        } else {
          SumZero(width, w => padded(a, h, w));
        }
      }
      SumWindow(height, top, kh, SmallRow(kw, f, a), WindowRow(width, padded, a));
      SumCongruence(height, WindowRow(width, padded, a), h => Sum(width, w => padded(a, h, w)));
      SumCongruence(kh, SmallRow(kw, f, a), i => Sum(kw, j => f(a, i, j)));
    }
    SumCongruence(k, big, small);
  }

  // ----- sums along one axis of a triple function -----

  function Last(f: (int, int, int) -> real, a: int, b: int): int -> real { c => f(a, b, c) }

  function Middle(f: (int, int, int) -> real, m: nat, a: int): int -> real { b => Sum(m, Last(f, a, b)) }

  function First(f: (int, int, int) -> real, n: nat, m: nat): int -> real { a => Sum(n, Middle(f, m, a)) }

  lemma FirstIsSum3(f: (int, int, int) -> real, k: nat, n: nat, m: nat)
    ensures Sum(k, First(f, n, m)) == Sum3(k, n, m, f)
  {
    hide Sum;
    var spelled := (a: int) => Sum(n, b => Sum(m, c => f(a, b, c)));
    forall a: int | 0 <= a < k ensures First(f, n, m)(a) == spelled(a) {
      var inner := (b: int) => Sum(m, c => f(a, b, c));
      forall b: int | 0 <= b < n ensures Middle(f, m, a)(b) == inner(b) {
        SumCongruence(m, Last(f, a, b), c => f(a, b, c));
      }
      SumCongruence(n, Middle(f, m, a), inner);
    }
    SumCongruence(k, First(f, n, m), spelled);
  }
}
