/**
 First-order behaviour of real functions near zero, and the calculus rules for it: a function
 has value v and slope t when v + h * t misses it by at most a constant times h * h.
 */
module FirstOrder {
  import opened Sums

  predicate Within(x: real, limit: real) { -limit <= x <= limit }

  predicate Good(f: real -> real, v: real, t: real, bound: real, h: real) {
    Within(f(h) - v - Times(h, t), Times(bound, Times(h, h)))
  }

  ghost predicate Close(f: real -> real, v: real, t: real, delta: real, bound: real) {
    0.0 < delta <= 1.0 && 0.0 <= bound && forall h: real | Within(h, delta) :: Good(f, v, t, bound, h)
  }

  ghost predicate HasSlope(f: real -> real, v: real, t: real) {
    exists delta: real, bound: real :: Close(f, v, t, delta, bound)
  }

  lemma CloseIs(f: real -> real, v: real, t: real, delta: real, bound: real)
    requires 0.0 < delta <= 1.0 && 0.0 <= bound && forall h: real | Within(h, delta) :: Good(f, v, t, bound, h)
    ensures HasSlope(f, v, t)
  {
    hide Good, Within;
    assert Close(f, v, t, delta, bound);
  }

  function Abs(x: real): real { if x < 0.0 then -x else x }

  function Smaller(a: real, b: real): real { if a < b then a else b }

  // ----- inequalities -----

  lemma SquareIsSmall(h: real)
    requires Within(h, 1.0)
    ensures 0.0 <= Times(h, h) <= 1.0 && Times(h, h) <= Abs(h)
  {
    var a := Abs(h);
    assert a * a == h * h;
    assert a * a <= a * 1.0;
  }

  lemma TimesPositive(a: real, b: real)
    requires 0.0 <= a && 0.0 <= b
    ensures 0.0 <= Times(a, b)
  {
  }

  lemma Negations(x: real, y: real)
    ensures Times(-x, y) == -Times(x, y) == Times(x, -y)
  {
  }

  lemma AbsOfTimes(x: real, y: real)
    ensures Abs(Times(x, y)) == Times(Abs(x), Abs(y))
  {
    Negations(x, y);
    Negations(-x, y);
    TimesPositive(Abs(x), Abs(y));
    hide Times;
  }

  lemma Monotone(u: real, a: real, w: real)
    requires u <= a && 0.0 <= w
    ensures Times(u, w) <= Times(a, w)
  {
    assert 0.0 <= (a - u) * w;
    assert (a - u) * w == a * w - u * w;
  }

  lemma MulWithin(x: real, a: real, y: real, b: real)
    requires Within(x, a) && Within(y, b)
    ensures Within(Times(x, y), Times(a, b))
  {
    var u, w := Abs(x), Abs(y);
    AbsOfTimes(x, y);
    Monotone(u, a, w);
    Monotone(w, b, a);
    TimesLaws(a, w, 0.0);
    TimesLaws(a, b, 0.0);
    hide Times;
  }

  lemma AbsWithin(x: real)
    ensures Within(x, Abs(x)) && 0.0 <= Abs(x)
  {
  }

  lemma TimesShrinks(a: real, q: real)
    requires 0.0 <= a && q <= 1.0
    ensures Times(a, q) <= a
  {
    assert a * q <= a * 1.0;
  }

  /** A value whose estimate is good stays near zero within the sum of the parts. */
  lemma ValueBounded(z: real, w: real, s: real, k: real, b: real, h: real)
    requires Within(h, 1.0) && 0.0 <= b && z == w + Times(h, s) + k && Within(k, Times(b, Times(h, h)))
    ensures Within(w + Times(h, s), Abs(w) + Abs(s)) && Within(z, Abs(w) + Abs(s) + b)
  {
    SquareIsSmall(h);
    TimesShrinks(b, Times(h, h));
    AbsWithin(s);
    AbsWithin(w);
    MulWithin(h, 1.0, s, Abs(s));
    TimesLaws(Abs(s), 0.0, 0.0);
    hide Times, Abs;
  }

  // ----- lines, sums and multiples -----

  lemma SlopeOfLine(f: real -> real, v: real, t: real)
    requires forall h: real :: f(h) == v + Times(h, t)
    ensures HasSlope(f, v, t)
  {
    forall h: real | Within(h, 1.0) ensures Good(f, v, t, 0.0, h) {
      assert f(h) == v + Times(h, t);
    }
    CloseIs(f, v, t, 1.0, 0.0);
  }

  lemma SlopeOfSum(f: real -> real, v: real, t: real, g: real -> real, w: real, s: real, r: real -> real)
    requires HasSlope(f, v, t) && HasSlope(g, w, s) && forall h: real :: r(h) == f(h) + g(h)
    ensures HasSlope(r, v + w, t + s)
  {
    hide Times;
    var d1: real, b1: real :| Close(f, v, t, d1, b1);
    var d2: real, b2: real :| Close(g, w, s, d2, b2);
    var d := Smaller(d1, d2);
    forall h: real | Within(h, d) ensures Good(r, v + w, t + s, b1 + b2, h) {
      assert Good(f, v, t, b1, h) && Good(g, w, s, b2, h) && r(h) == f(h) + g(h);
      TimesLaws(h, t, s);
      TimesLaws(Times(h, h), b1, b2);
      TimesLaws(Times(h, h), b1 + b2, 0.0);
      TimesLaws(Times(h, h), b2, 0.0);
    }
    CloseIs(r, v + w, t + s, d, b1 + b2);
  }

  lemma SlopeOfMultiple(f: real -> real, v: real, t: real, c: real, r: real -> real)
    requires HasSlope(f, v, t) && forall h: real :: r(h) == Times(f(h), c)
    ensures HasSlope(r, Times(v, c), Times(t, c))
  {
    var g := (h: real) => c;
    forall h: real ensures g(h) == c + Times(h, 0.0) {
      TimesLaws(h, 0.0, 0.0);
    }
    SlopeOfLine(g, c, 0.0);
    SlopeOfProduct(f, v, t, g, c, 0.0, r);
    TimesLaws(v, 0.0, 0.0);
  }

  // ----- products -----

  function ProductBound(v: real, t: real, b1: real, w: real, s: real, b2: real): (bound: real)
    requires 0.0 <= b1 && 0.0 <= b2
    ensures 0.0 <= bound
  {
    TimesPositive(Abs(t), Abs(s));
    TimesPositive(b1, Abs(w) + Abs(s) + b2);
    TimesPositive(Abs(v) + Abs(t), b2);
    Times(Abs(t), Abs(s)) + Times(b1, Abs(w) + Abs(s) + b2) + Times(Abs(v) + Abs(t), b2)
  }

  lemma ProductExpands(y: real, v: real, t: real, e: real, z: real, w: real, s: real, k: real, h: real)
    requires y == v + Times(h, t) + e && z == w + Times(h, s) + k
    ensures Times(y, z) - Times(v, w) - Times(h, Times(t, w) + Times(v, s))
            == Times(Times(h, h), Times(t, s)) + Times(e, z) + Times(v + Times(h, t), k)
  {
    var a := v + h * t;
    assert y * z == a * z + e * z;
    assert a * z == a * (w + h * s) + a * k;
    assert a * (w + h * s) == v * w + v * (h * s) + (h * t) * w + (h * t) * (h * s);
    assert (h * t) * (h * s) == (h * h) * (t * s);
    assert v * (h * s) + (h * t) * w == h * (t * w + v * s);
  }

  lemma BoundsAdd(a: real, b1: real, c: real, d: real, b2: real, q: real)
    ensures Times(q, a) + Times(Times(b1, q), c) + Times(d, Times(b2, q)) == Times(a + Times(b1, c) + Times(d, b2), q)
  {
  }

  /** y = v + h * t + e and z = w + h * s + k with small e and k: the product's estimate is as good. */
  lemma ProductGood(
    y: real, v: real, t: real, b1: real, e: real, z: real, w: real, s: real, b2: real, k: real, h: real)
    requires Within(h, 1.0) && 0.0 <= b1 && 0.0 <= b2
    requires y == v + Times(h, t) + e && z == w + Times(h, s) + k
    requires Within(e, Times(b1, Times(h, h))) && Within(k, Times(b2, Times(h, h)))
    ensures Within(Times(y, z) - Times(v, w) - Times(h, Times(t, w) + Times(v, s)),
                   Times(ProductBound(v, t, b1, w, s, b2), Times(h, h)))
  {
    SquareIsSmall(h);
    hide Times, Abs;
    var q := Times(h, h);
    var a, c, d := Times(Abs(t), Abs(s)), Abs(w) + Abs(s) + b2, Abs(v) + Abs(t);
    ValueBounded(z, w, s, k, b2, h);
    ValueBounded(y, v, t, e, b1, h);
    AbsWithin(t);
    AbsWithin(s);
    MulWithin(t, Abs(t), s, Abs(s));
    MulWithin(q, q, Times(t, s), a);
    MulWithin(e, Times(b1, q), z, c);
    MulWithin(v + Times(h, t), d, k, Times(b2, q));
    ProductExpands(y, v, t, e, z, w, s, k, h);
    BoundsAdd(a, b1, c, d, b2, q);
  }

  lemma SlopeOfProduct(f: real -> real, v: real, t: real, g: real -> real, w: real, s: real, r: real -> real)
    requires HasSlope(f, v, t) && HasSlope(g, w, s) && forall h: real :: r(h) == Times(f(h), g(h))
    ensures HasSlope(r, Times(v, w), Times(t, w) + Times(v, s))
  {
    var d1: real, b1: real :| Close(f, v, t, d1, b1);
    var d2: real, b2: real :| Close(g, w, s, d2, b2);
    var d, bound := Smaller(d1, d2), ProductBound(v, t, b1, w, s, b2);
    hide ProductBound, Times;
    forall h: real | Within(h, d) ensures Good(r, Times(v, w), Times(t, w) + Times(v, s), bound, h) {
      assert Good(f, v, t, b1, h) && Good(g, w, s, b2, h) && r(h) == Times(f(h), g(h));
      var y, z := f(h), g(h);
      ProductGood(y, v, t, b1, y - v - Times(h, t), z, w, s, b2, z - w - Times(h, s), h);
    }
    CloseIs(r, Times(v, w), Times(t, w) + Times(v, s), d, bound);
  }

  // ----- inverses -----

  lemma NearIsNotZero(y: real, v: real)
    requires v != 0.0 && Within(y - v, Abs(v) / 2.0)
    ensures y != 0.0
  {
  }

  /** The inverse of a number within half of v is at most twice the inverse of v. */
  lemma InverseBounded(y: real, v: real, r: real, w: real)
    requires Times(v, w) == 1.0 && Times(y, r) == 1.0 && Within(y - v, Abs(v) / 2.0)
    ensures Within(r, 2.0 * Abs(w))
  {
    var a, x, b, u := Abs(r), Abs(y), Abs(w), Abs(v);
    assert x * a == 1.0 && u * b == 1.0;
    assert x >= u / 2.0;
    assert 1.0 >= (u / 2.0) * a by {
      assert x * a >= (u / 2.0) * a;
    }
    assert b * 1.0 >= b * ((u / 2.0) * a);
    assert b * ((u / 2.0) * a) == (u * b) * (a / 2.0);
  }

  lemma InverseExpands(y: real, v: real, t: real, e: real, r: real, w: real, m: real, h: real)
    requires y == v + Times(h, t) + e && Times(y, r) == 1.0 && Times(v, w) == 1.0 && m == Times(t, Times(w, w))
    ensures r - w - Times(h, -m)
            == Times(r, Times(e, -w + Times(h, m)) + Times(Times(h, h), Times(t, m)))
  {
    var d := r - w + h * m;
    assert y * d == y * r - y * w + y * (h * m);
    assert y * w == v * w + (h * t) * w + e * w;
    assert v * (h * m) == h * t * w by {
      assert v * (h * m) == (v * w) * (h * t * w);
    }
    assert (h * t) * (h * m) == (h * h) * (t * m);
    assert y * (h * m) == v * (h * m) + (h * t) * (h * m) + e * (h * m);
    assert y * d == e * (-w + h * m) + (h * h) * (t * m);
    assert r * (y * d) == (y * r) * d;
  }

  function InverseBound(t: real, b: real, w: real, m: real): (bound: real)
    requires 0.0 <= b
    ensures 0.0 <= bound
  {
    TimesPositive(b, Abs(w) + Abs(m));
    TimesPositive(Abs(t), Abs(m));
    TimesPositive(2.0 * Abs(w), Times(b, Abs(w) + Abs(m)) + Times(Abs(t), Abs(m)));
    Times(2.0 * Abs(w), Times(b, Abs(w) + Abs(m)) + Times(Abs(t), Abs(m)))
  }

  lemma InverseBoundsAdd(a: real, b: real, c: real, d: real, q: real)
    ensures Times(a, Times(Times(b, q), c) + Times(q, d)) == Times(Times(a, Times(b, c) + d), q)
  {
  }

  lemma InverseGood(y: real, v: real, t: real, b: real, e: real, r: real, w: real, m: real, h: real)
    requires Within(h, 1.0) && 0.0 <= b && y == v + Times(h, t) + e && Within(e, Times(b, Times(h, h)))
    requires Times(y, r) == 1.0 && Times(v, w) == 1.0 && m == Times(t, Times(w, w))
    requires Within(y - v, Abs(v) / 2.0)
    ensures Within(r - w - Times(h, -m), Times(InverseBound(t, b, w, m), Times(h, h)))
  {
    SquareIsSmall(h);
    InverseBounded(y, v, r, w);
    hide Times, Abs;
    var q := Times(h, h);
    var c, d := Abs(w) + Abs(m), Times(Abs(t), Abs(m));
    InverseExpands(y, v, t, e, r, w, m, h);
    SmallShift(w, m, h);
    AbsWithin(t);
    AbsWithin(m);
    MulWithin(t, Abs(t), m, Abs(m));
    MulWithin(q, q, Times(t, m), d);
    MulWithin(e, Times(b, q), -w + Times(h, m), c);
    MulWithin(r, 2.0 * Abs(w), Times(e, -w + Times(h, m)) + Times(q, Times(t, m)), Times(Times(b, q), c) + Times(q, d));
    InverseBoundsAdd(2.0 * Abs(w), b, c, d, q);
  }

  lemma SmallShift(w: real, m: real, h: real)
    requires Within(h, 1.0)
    ensures Within(-w + Times(h, m), Abs(w) + Abs(m))
  {
    AbsWithin(w);
    AbsWithin(m);
    MulWithin(h, 1.0, m, Abs(m));
    TimesLaws(Abs(m), 0.0, 0.0);
    hide Times, Abs;
  }

  /** Close enough to zero, f stays within half of its value. */
  lemma StaysNear(f: real -> real, v: real, t: real, d: real, b: real, eps: real, h: real)
    requires Close(f, v, t, d, b) && Within(h, d) && Within(h, eps) && 0.0 <= eps
    requires Times(eps, Abs(t) + b) <= Abs(v) / 2.0
    ensures Within(f(h) - v, Abs(v) / 2.0)
  {
    assert Good(f, v, t, b, h);
    var q, e := Times(h, h), f(h) - v - Times(h, t);
    SquareIsSmall(h);
    AbsWithin(t);
    MulWithin(h, eps, t, Abs(t));
    assert Times(b, q) <= Times(eps, b) by {
      assert q <= eps;
      assert b * q <= b * eps;
    }
    TimesLaws(eps, Abs(t), b);
    hide Times, Abs;
  }

  lemma Radius(v: real, k: real) returns (eps: real)
    requires v != 0.0 && 0.0 <= k
    ensures 0.0 < eps && Times(eps, k) <= Abs(v) / 2.0
  {
    eps := Abs(v) / (2.0 * (k + 1.0));
    assert eps * (2.0 * (k + 1.0)) == Abs(v);
    assert eps * (2.0 * (k + 1.0)) == 2.0 * (eps * k) + 2.0 * eps;
  }

  lemma SlopeOfInverse(f: real -> real, v: real, t: real, w: real, r: real -> real)
    requires HasSlope(f, v, t) && Times(v, w) == 1.0
    requires forall h: real | f(h) != 0.0 :: Times(f(h), r(h)) == 1.0
    ensures HasSlope(r, w, -Times(t, Times(w, w)))
  {
    assert v != 0.0;
    hide Times, Abs;
    var d1: real, b: real :| Close(f, v, t, d1, b);
    AbsWithin(t);
    var eps := Radius(v, Abs(t) + b);
    var d := Smaller(d1, eps);
    var m := Times(t, Times(w, w));
    var bound := InverseBound(t, b, w, m);
    hide InverseBound;
    forall h: real | Within(h, d) ensures Good(r, w, -m, bound, h) {
      assert Good(f, v, t, b, h);
      StaysNear(f, v, t, d1, b, eps, h);
      NearIsNotZero(f(h), v);
      InverseGood(f(h), v, t, b, f(h) - v - Times(h, t), r(h), w, m, h);
    }
    CloseIs(r, w, -m, d, bound);
  }
}
