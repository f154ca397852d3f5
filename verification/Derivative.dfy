/**
 What the gradients of the backward pass are. Tangents are computed forwards, over dual
 numbers, without the gradient rules; they are shown to be true derivatives (the error of the
 first-order estimate is quadratic), and the adjoints to be their transpose.
 */
module Derivative {
  import opened Sums
  import opened Autograd
  import opened FirstOrder

  datatype Dual = Dual(v: real, t: real)

  /** How fast each leaf moves. */
  type Direction = int -> real

  function DualMul(a: Dual, b: Dual): Dual {
    Dual(a.v * b.v, a.t * b.v + a.v * b.t)
  }

  function DualReciprocal(a: Dual): Dual {
    Dual(Quotient(1.0, a.v), Quotient(-a.t, a.v * a.v))
  }

  function DualPower(a: Dual, n: int): Dual
    decreases if n < 0 then 1 - n else n
  {
    if n == 0 then Dual(1.0, 0.0)
    else if n > 0 then DualMul(a, DualPower(a, n - 1))
    else DualReciprocal(DualPower(a, -n))
  }

  function DualCompute(op: Op, args: seq<Dual>): Dual
    requires |args| == Arity(op)
  {
    match op
    case Add => Dual(args[0].v + args[1].v, args[0].t + args[1].t)
    case Mul => DualMul(args[0], args[1])
    case Div => DualMul(args[0], DualReciprocal(args[1]))
    case Negate => Dual(-args[0].v, -args[0].t)
    case AddScalar(c) => Dual(args[0].v + c, args[0].t)
    case MulScalar(c) => Dual(args[0].v * c, args[0].t * c)
    case DivScalar(c) => DualMul(args[0], DualReciprocal(Dual(c, 0.0)))
    case PowerScalar(n) => DualPower(args[0], n)
  }

  function Forward(g: Graph, d: Direction, x: nat): Dual
    requires WellFormed(g) && x < |g|
    decreases x, 1
  {
    if g[x].Leaf? then Dual(g[x].value, d(x)) else DualCompute(g[x].op, ForwardArgs(g, d, x))
  }

  function ForwardArgs(g: Graph, d: Direction, x: nat): (args: seq<Dual>)
    requires WellFormed(g) && x < |g|
    ensures |args| == |Inputs(g, x)|
    decreases x, 0
  {
    seq(|Inputs(g, x)|, j requires 0 <= j < |Inputs(g, x)| => Forward(g, d, Inputs(g, x)[j]))
  }

  function Tangent(g: Graph, d: Direction, x: nat): real
    requires WellFormed(g) && x < |g|
  {
    Forward(g, d, x).t
  }

  ghost predicate RegularFrom(g: Graph, out: nat)
    requires WellFormed(g) && out < |g|
  {
    forall x: nat | x < |g| && g[x].Apply? && Reaches(g, out, x) :: Regular(g[x].op, Args(g, x))
  }

  lemma RegularInputs(g: Graph, out: nat, j: nat)
    requires WellFormed(g) && out < |g| && RegularFrom(g, out) && j < |Inputs(g, out)|
    ensures RegularFrom(g, Inputs(g, out)[j])
  {
    hide Regular;
    forall x: nat | x < |g| && Reaches(g, Inputs(g, out)[j], x) ensures Reaches(g, out, x) {
    }
  }

  // ----- the gradient rules against the dual numbers -----

  lemma QuotientTimes(a: real, b: real)
    requires b != 0.0
    ensures Quotient(a, b) * b == a && Quotient(a, b) == a * Quotient(1.0, b)
  {
    var q := 1.0 / b;
    assert q * b == 1.0;
    assert (a * q) * b == a * (q * b);
    assert a * q == a / b;
  }

  lemma UniqueQuotient(a: real, b: real, q: real)
    requires b != 0.0 && q * b == a
    ensures Quotient(a, b) == q
  {
  }

  lemma NonZeroProduct(a: real, b: real)
    requires a != 0.0 && b != 0.0
    ensures a * b != 0.0
  {
  }

  lemma {:induction false} PowerNonZero(x: real, n: nat)
    requires x != 0.0
    ensures Power(x, n) != 0.0
  {
    if n > 0 {
      PowerNonZero(x, n - 1);
      NonZeroProduct(x, Power(x, n - 1));
    }
  }

  /** The derivative of a power, from the next lower power and the exponent. */
  function Slope(lower: real, n: real, t: real): real { lower * n * t }

  lemma {:induction false} PositivePowerRule(a: Dual, n: nat)
    ensures DualPower(a, n).v == Power(a.v, n)
    ensures n > 0 ==> DualPower(a, n).t == Slope(Power(a.v, n - 1), n as real, a.t)
  {
    if n == 1 {
      FirstPower(a);
    } else if n > 1 {
      PositivePowerRule(a, n - 1);
      PowerUnfolds(a, n);
      var p, q, u := Power(a.v, n - 2), Power(a.v, n - 1), DualPower(a, n - 1).t;
      hide Power, DualPower, DualMul, Slope;
      assert DualPower(a, n - 1) == Dual(q, u);
      PowerStep(a, p, q, u, (n - 1) as real, n as real);
    }
  }

  lemma FirstPower(a: Dual)
    ensures DualPower(a, 1) == a && Power(a.v, 1) == a.v && Slope(Power(a.v, 0), 1.0, a.t) == a.t
  {
    assert DualPower(a, 0) == Dual(1.0, 0.0) && Power(a.v, 0) == 1.0;
    assert DualPower(a, 1) == DualMul(a, DualPower(a, 0)) && Power(a.v, 1) == a.v * 1.0;
    hide DualPower, Power;
    Units(a);
    hide DualMul, Slope;
  }

  lemma Units(a: Dual)
    ensures DualMul(a, Dual(1.0, 0.0)) == a && Slope(1.0, 1.0, a.t) == a.t
  {
  }

  lemma PowerUnfolds(a: Dual, n: nat)
    requires n > 1
    ensures DualPower(a, n) == DualMul(a, DualPower(a, n - 1))
    ensures Power(a.v, n) == a.v * Power(a.v, n - 1) && Power(a.v, n - 1) == a.v * Power(a.v, n - 2)
  {
    hide DualMul;
  }

  lemma PowerStep(a: Dual, p: real, q: real, u: real, m: real, n: real)
    requires q == a.v * p && u == Slope(p, m, a.t) && n == m + 1.0
    ensures DualMul(a, Dual(q, u)) == Dual(a.v * q, Slope(q, n, a.t))
  {
    var x, t := a.v, a.t;
    assert x * (p * m * t) == (x * p) * m * t;
    assert q * n * t == q * m * t + q * t;
  }

  lemma NegativePowerRule(a: Dual, m: int)
    requires m > 0 && a.v != 0.0
    ensures DualPower(a, -m).v == Power(a.v, -m)
    ensures DualPower(a, -m).t == Slope(Power(a.v, -m - 1), (-m) as real, a.t)
  {
    var p, q, s, u := NegativePowerUnfolds(a, m);
    hide *;
    ReciprocalStep(a.v, a.t, p, q, s, u, (-m) as real);
  }

  /** Consecutive powers p, q, s of x, and the tangent u of the middle one, whose exponent is -k. */
  predicate Powers(x: real, t: real, p: real, q: real, s: real, u: real, k: real) {
    p != 0.0 && q == x * p && s == x * q && u == p * -k * t
  }

  lemma NegativePowerUnfolds(a: Dual, m: int) returns (p: real, q: real, s: real, u: real)
    requires m > 0 && a.v != 0.0
    ensures Powers(a.v, a.t, p, q, s, u, (-m) as real)
    ensures DualPower(a, -m) == DualReciprocal(Dual(q, u)) && DualReciprocal(Dual(q, u)).v == Quotient(1.0, q)
    ensures Power(a.v, -m) == Quotient(1.0, q) && Power(a.v, -m - 1) == Quotient(1.0, s)
  {
    PositivePowerRule(a, m);
    PowerNonZero(a.v, m - 1);
    p, q, s := Power(a.v, m - 1), Power(a.v, m), Power(a.v, m + 1);
    u := DualPower(a, m).t;
    hide Quotient, DualMul;
    assert DualPower(a, m) == Dual(q, u);
    assert -(-m - 1) == m + 1;
    NegatedFactor(p, m as real, (-m) as real, a.t);
  }

  lemma NegatedFactor(p: real, m: real, k: real, t: real)
    requires k == -m
    ensures p * m * t == p * -k * t
  {
  }

  lemma ReciprocalStep(x: real, t: real, p: real, q: real, s: real, u: real, k: real)
    requires x != 0.0 && Powers(x, t, p, q, s, u, k)
    ensures DualReciprocal(Dual(q, u)).t == Slope(Quotient(1.0, s), k, t)
  {
    NonZeroProduct(x, p);
    NonZeroProduct(x, q);
    NonZeroProduct(q, q);
    var r := Quotient(1.0, s);
    QuotientTimes(1.0, s);
    hide Quotient;
    assert q * q == s * p by { Regroup(x, p); }
    assert (r * k * t) * (s * p) == (r * s) * (k * t * p) by { Shuffle(r, k * t, s, p); }
    assert k * t * p == -u;
    UniqueQuotient(-u, q * q, r * k * t);
  }

  lemma Regroup(x: real, p: real)
    ensures (x * p) * (x * p) == (x * (x * p)) * p
  {
  }

  lemma Shuffle(q: real, kt: real, s: real, p: real)
    ensures (q * kt) * (s * p) == (q * s) * (kt * p)
  {
  }

  lemma PowerRule(a: Dual, n: int)
    requires n >= 0 || a.v != 0.0
    ensures DualPower(a, n).v == Power(a.v, n)
    ensures DualPower(a, n).t
            == if n == 0 then a.v * 0.0 * 1.0 * a.t else 1.0 * (Power(a.v, n - 1) * n as real) * a.t
  {
    if n == 0 {
      assert DualPower(a, 0) == Dual(1.0, 0.0);
    } else if n > 0 {
      PositivePowerRule(a, n);
      hide DualPower, Power;
    } else {
      NegativePowerRule(a, -n);
      hide DualPower, Power;
    }
  }

  /** The weighted tangents of an operation's inputs, with the weights its gradient rule gives. */
  function Weighted(op: Op, vals: seq<real>, args: seq<Dual>): real
    requires |args| == |vals| == Arity(op)
  {
    var r := Rule(op, 1.0, vals);
    if Arity(op) == 1 then Times(r[0], args[0].t) else Times(r[0], args[0].t) + Times(r[1], args[1].t)
  }

  lemma DivRule(a: Dual, b: Dual)
    requires b.v != 0.0
    ensures var q := DualMul(a, DualReciprocal(b));
            && q.v == Quotient(a.v, b.v)
            && q.t == Quotient(1.0, b.v) * a.t + Quotient(1.0 * a.v * -1.0, b.v * b.v) * b.t
  {
    QuotientTimes(a.v, b.v);
    NonZeroProduct(b.v, b.v);
    QuotientTimes(-b.t, b.v * b.v);
    QuotientTimes(1.0 * a.v * -1.0, b.v * b.v);
    var r := Quotient(1.0, b.v * b.v);
    assert a.v * (-b.t * r) == (-a.v * r) * b.t;
  }

  /** Every gradient rule is the transpose of the dual arithmetic of its operation. */
  lemma RuleMatchesDual(op: Op, vals: seq<real>, args: seq<Dual>)
    requires |args| == |vals| == Arity(op) && Regular(op, vals)
    requires forall j | 0 <= j < |args| :: args[j].v == vals[j]
    ensures DualCompute(op, args).v == Compute(op, vals)
    ensures DualCompute(op, args).t == Weighted(op, vals, args)
  {
    hide DualPower, Power, Quotient, DualMul, DualReciprocal;
    match op {
      case Div => DivMatchesDual(vals, args);
      case DivScalar(c) => DivRule(args[0], Dual(c, 0.0));
      case PowerScalar(n) => PowerRule(args[0], n);
      case Mul => MulRule(args[0], args[1]);
      case _ =>
    }
  }

  lemma DivMatchesDual(vals: seq<real>, args: seq<Dual>)
    requires |args| == |vals| == 2 && vals[1] != 0.0 && args[0].v == vals[0] && args[1].v == vals[1]
    ensures DualCompute(Div, args).v == Compute(Div, vals)
    ensures DualCompute(Div, args).t == Weighted(Div, vals, args)
  {
    DivRule(args[0], args[1]);
    hide DualMul, DualReciprocal;
  }

  lemma MulRule(a: Dual, b: Dual)
    ensures DualMul(a, b) == Dual(a.v * b.v, (1.0 * b.v) * a.t + (1.0 * a.v) * b.t)
  {
  }

  // ----- adjoints are the transpose of tangents -----

  lemma {:induction false} ForwardValue(g: Graph, d: Direction, out: nat)
    requires WellFormed(g) && out < |g| && RegularFrom(g, out)
    ensures Forward(g, d, out).v == Value(g, out)
    ensures g[out].Apply? ==>
              Tangent(g, d, out) == Weighted(g[out].op, Args(g, out), ForwardArgs(g, d, out))
    decreases out
  {
    RootReaches(g, out);
    if g[out].Apply? {
      forall j: nat | j < |Inputs(g, out)| ensures ForwardArgs(g, d, out)[j].v == Args(g, out)[j] {
        RegularInputs(g, out, j);
        ForwardValue(g, d, Inputs(g, out)[j]);
      }
      hide Reaches, Weighted, Regular, Compute, DualCompute;
      RuleMatchesDual(g[out].op, Args(g, out), ForwardArgs(g, d, out));
    }
  }

  /** One term of the tangent of u: what moves through x. */
  function Through(g: Graph, d: Direction, u: nat): int -> real
    requires WellFormed(g) && u < |g|
  {
    x => if 0 <= x < |g| then Times(Partial(g, u, x), Tangent(g, d, x)) else 0.0
  }

  function At(x: int, c: real): int -> real {
    y => if y == x then c else 0.0
  }

  lemma SumAt(n: nat, x: nat, c: real)
    requires x < n
    ensures Sum(n, At(x, c)) == c
  {
    SumSingle(n, x, At(x, c));
  }

  /** The partial derivatives of a node, as a sum over its one or two uses. */
  lemma PartialSplits(g: Graph, u: nat, x: nat)
    requires WellFormed(g) && u < |g| && g[u].Apply?
    ensures var r := Rule(g[u].op, 1.0, Args(g, u));
            Partial(g, u, x)
            == if |r| == 1 then At(Inputs(g, u)[0], r[0])(x)
               else At(Inputs(g, u)[0], r[0])(x) + At(Inputs(g, u)[1], r[1])(x)
  {
    hide Rule, Args;
    var f := Passed(g, u, x);
    assert Sum(0, f) == 0.0;
    assert Sum(1, f) == f(0);
    if |Inputs(g, u)| == 2 {
      assert Sum(2, f) == Sum(1, f) + f(1);
    }
  }

  lemma ThroughOne(g: Graph, d: Direction, u: nat, x: nat)
    requires WellFormed(g) && u < |g| && g[u].Apply? && x < |g|
    ensures var r := Rule(g[u].op, 1.0, Args(g, u));
            Through(g, d, u)(x)
            == if |r| == 1 then At(Inputs(g, u)[0], Times(r[0], Tangent(g, d, Inputs(g, u)[0])))(x)
               else At(Inputs(g, u)[0], Times(r[0], Tangent(g, d, Inputs(g, u)[0])))(x)
                    + At(Inputs(g, u)[1], Times(r[1], Tangent(g, d, Inputs(g, u)[1])))(x)
  {
    PartialSplits(g, u, x);
    hide Rule, Args, Partial, Tangent, Times;
    var r := Rule(g[u].op, 1.0, Args(g, u));
    var t := Tangent(g, d, x);
    TimesLaws(t, r[0], if |r| == 1 then 0.0 else r[1]);
    TimesLaws(Partial(g, u, x), t, 0.0);
    TimesLaws(r[0], t, 0.0);
    if |r| == 2 {
      TimesLaws(r[1], t, 0.0);
    }
  }

  lemma TangentThrough(g: Graph, d: Direction, u: nat)
    requires WellFormed(g) && u < |g| && RegularFrom(g, u) && g[u].Apply?
    ensures Tangent(g, d, u) == Sum(|g|, Through(g, d, u))
  {
    ForwardValue(g, d, u);
    hide Rule, Tangent, Times, Args, Reaches, RegularFrom;
    var r := Rule(g[u].op, 1.0, Args(g, u));
    var in0 := Inputs(g, u)[0];
    var c0 := Times(r[0], Tangent(g, d, in0));
    forall x: nat | x < |g| ensures
      Through(g, d, u)(x) == if |r| == 1 then At(in0, c0)(x)
                             else At(in0, c0)(x) + At(Inputs(g, u)[1], Times(r[1], Tangent(g, d, Inputs(g, u)[1])))(x)
    {
      ThroughOne(g, d, u, x);
    }
    hide Rule, Through, RegularFrom, Tangent, Times, Args, Reaches;
    SumAt(|g|, in0, c0);
    if |r| == 1 {
      SumCongruence(|g|, Through(g, d, u), At(in0, c0));
    } else {
      var in1 := Inputs(g, u)[1];
      var c1 := Times(r[1], Tangent(g, d, in1));
      SumAt(|g|, in1, c1);
      SumAdd(|g|, At(in0, c0), At(in1, c1), Through(g, d, u));
    }
  }

  /** What flows from u to x: what u passes back to x, times how fast x moves. */
  function Flow(g: Graph, out: nat, seed: real, d: Direction): (int, int) -> real
    requires WellFormed(g) && out < |g|
  {
    (u, x) => if 0 <= u < |g| && 0 <= x < |g| then Times(Share(g, out, seed, u, x), Tangent(g, d, x)) else 0.0
  }

  /** A node's adjoint times its tangent. */
  function Weight(g: Graph, out: nat, seed: real, d: Direction): int -> real
    requires WellFormed(g) && out < |g|
  {
    x => if 0 <= x < |g| then Times(Adjoint(g, out, seed, x), Tangent(g, d, x)) else 0.0
  }

  function LeafWeight(g: Graph, out: nat, seed: real, d: Direction): int -> real
    requires WellFormed(g) && out < |g|
  {
    x => if 0 <= x < |g| && g[x].Leaf? then Times(Adjoint(g, out, seed, x), d(x)) else 0.0
  }

  lemma FlowIs(g: Graph, out: nat, seed: real, d: Direction, u: nat, x: nat)
    requires WellFormed(g) && out < |g| && u < |g| && x < |g|
    ensures Flow(g, out, seed, d)(u, x) == Times(Share(g, out, seed, u, x), Tangent(g, d, x))
  {
    hide Share, Times, Tangent;
  }

  /** A node that passes nothing back has no flow out of it. */
  lemma NoFlow(g: Graph, out: nat, seed: real, d: Direction, u: nat)
    requires WellFormed(g) && out < |g| && u < |g| && forall x: nat | x < |g| :: Share(g, out, seed, u, x) == 0.0
    ensures Sum(|g|, x => Flow(g, out, seed, d)(u, x)) == 0.0
  {
    hide Share, Times, Tangent;
    var f := (x: int) => Flow(g, out, seed, d)(u, x);
    forall x: nat | x < |g| ensures f(x) == 0.0 {
      FlowIs(g, out, seed, d, u, x);
      TimesLaws(Tangent(g, d, x), 0.0, 0.0);
    }
    hide Flow;
    SumZero(|g|, f);
  }

  lemma FlowOutOfOperation(g: Graph, out: nat, seed: real, d: Direction, u: nat)
    requires WellFormed(g) && out < |g| && RegularFrom(g, out) && u < |g| && g[u].Apply? && Reaches(g, out, u)
    ensures Times(Adjoint(g, out, seed, u), Tangent(g, d, u)) == Sum(|g|, x => Flow(g, out, seed, d)(u, x))
  {
    var a := Adjoint(g, out, seed, u);
    var f := (x: int) => Flow(g, out, seed, d)(u, x);
    RegularBelow(g, out, u);
    TangentThrough(g, d, u);
    hide Adjoint, Reaches, Partial, Tangent, RegularFrom;
    forall x: nat | x < |g| ensures f(x) == Times(a, Through(g, d, u)(x)) {
      FlowIs(g, out, seed, d, u, x);
      assert Share(g, out, seed, u, x) == Times(a, Partial(g, u, x));
      hide Times;
      TimesLaws(a, Partial(g, u, x), Tangent(g, d, x));
    }
    hide Times, Through, Flow;
    SumTimes(|g|, a, Through(g, d, u), f);
  }

  /** Flow out of a node: a node's weight is what it passes on, and at a leaf what stays. */
  lemma FlowOut(g: Graph, out: nat, seed: real, d: Direction, u: nat)
    requires WellFormed(g) && out < |g| && RegularFrom(g, out) && u < |g|
    ensures Weight(g, out, seed, d)(u)
            == LeafWeight(g, out, seed, d)(u) + Sum(|g|, x => Flow(g, out, seed, d)(u, x))
  {
    if g[u].Apply? && Reaches(g, out, u) {
      FlowOutOfOperation(g, out, seed, d, u);
    } else {
      forall x: nat | x < |g| ensures Share(g, out, seed, u, x) == 0.0 {
        SharesOfUsers(g, out, seed, x, u);
      }
      NoFlow(g, out, seed, d, u);
      if g[u].Apply? {
        UnreachedAdjoint(g, out, seed, u);
        TimesLaws(Tangent(g, d, u), 0.0, 0.0);
      } else {
        LeafTangent(g, d, u);
      }
    }
    hide Share, Adjoint, Reaches, Partial, Tangent, Times, Flow;
  }

  lemma LeafTangent(g: Graph, d: Direction, u: nat)
    requires WellFormed(g) && u < |g| && g[u].Leaf?
    ensures Tangent(g, d, u) == d(u)
  {
  }

  lemma {:induction false} ReachesTrans(g: Graph, a: nat, b: nat, c: nat)
    requires WellFormed(g) && a < |g| && b < |g| && Reaches(g, a, b) && Reaches(g, b, c)
    ensures Reaches(g, a, c)
    decreases a
  {
    if a != b {
      var i :| 0 <= i < |Inputs(g, a)| && Reaches(g, Inputs(g, a)[i], b);
      ReachesTrans(g, Inputs(g, a)[i], b, c);
    }
  }

  lemma RegularBelow(g: Graph, out: nat, u: nat)
    requires WellFormed(g) && out < |g| && RegularFrom(g, out) && u < |g| && Reaches(g, out, u)
    ensures RegularFrom(g, u)
  {
    hide Reaches, Regular;
    forall x: nat | x < |g| && Reaches(g, u, x) ensures Reaches(g, out, x) {
      ReachesTrans(g, out, u, x);
    }
  }

  /** Flow into a node: what its users pass back is its adjoint, less the seed at the output. */
  lemma FlowIn(g: Graph, out: nat, seed: real, d: Direction, x: nat)
    requires WellFormed(g) && out < |g| && x < |g|
    ensures Sum(|g|, u => Flow(g, out, seed, d)(u, x))
            == Weight(g, out, seed, d)(x) - At(out, Times(seed, Tangent(g, d, out)))(x)
  {
    hide Tangent, Adjoint, FromUsers, Flow, Share, Times, Sum;
    var f := (u: int) => Flow(g, out, seed, d)(u, x);
    var t := Tangent(g, d, x);
    forall u: nat | u < |g| ensures f(u) == Times(t, FromUsers(g, out, seed, x)(u)) {
      SharesOfUsers(g, out, seed, x, u);
      FlowIs(g, out, seed, d, u, x);
      TimesLaws(t, Share(g, out, seed, u, x), 0.0);
    }
    SumTimes(|g|, t, FromUsers(g, out, seed, x), f);
    AdjointUnfolds(g, out, seed, x);
    WeightSplits(t, if x == out then seed else 0.0, Sum(|g|, FromUsers(g, out, seed, x)));
  }

  lemma WeightSplits(t: real, s: real, a: real)
    ensures Times(s + a, t) == Times(s, t) + Times(t, a) && Times(0.0, t) == 0.0
  {
  }

  /**
   The seed times the tangent of the output is the sum over the leaves of adjoint times
   tangent: for every graph, every sharing of nodes, and every direction.
   */
  lemma AdjointsTransposeTangents(g: Graph, out: nat, seed: real, d: Direction)
    requires WellFormed(g) && out < |g| && RegularFrom(g, out)
    ensures Times(seed, Tangent(g, d, out)) == Sum(|g|, LeafWeight(g, out, seed, d))
  {
    hide *;
    var n := |g|;
    var flow := Flow(g, out, seed, d);
    var weight, leaf, seeded := Weight(g, out, seed, d), LeafWeight(g, out, seed, d), At(out, Times(seed, Tangent(g, d, out)));
    var outflow := (u: int) => Sum(n, x => flow(u, x));
    var inflow := (x: int) => Sum(n, u => flow(u, x));
    forall u: nat | u < n ensures weight(u) == leaf(u) + outflow(u) {
      FlowOut(g, out, seed, d, u);
    }
    forall x: nat | x < n ensures weight(x) == inflow(x) + seeded(x) {
      FlowIn(g, out, seed, d, x);
    }
    SumAdd(n, leaf, outflow, weight);
    SumAdd(n, inflow, seeded, weight);
    SumSwap(n, n, flow);
    SumAt(n, out, Times(seed, Tangent(g, d, out)));
  }

  // ----- dual numbers are true derivatives -----

  lemma MulSlope(f: real -> real, a: Dual, g: real -> real, b: Dual, r: real -> real)
    requires HasSlope(f, a.v, a.t) && HasSlope(g, b.v, b.t) && forall h: real :: r(h) == Times(f(h), g(h))
    ensures HasSlope(r, DualMul(a, b).v, DualMul(a, b).t)
  {
    assert DualMul(a, b) == Dual(Times(a.v, b.v), Times(a.t, b.v) + Times(a.v, b.t));
    hide HasSlope, Times, DualMul;
    SlopeOfProduct(f, a.v, a.t, g, b.v, b.t, r);
  }

  lemma ConstantSlope(c: real, r: real -> real)
    requires forall h: real :: r(h) == c
    ensures HasSlope(r, c, 0.0)
  {
    hide HasSlope;
    forall h: real ensures r(h) == c + Times(h, 0.0) {
      assert r(h) == c;
    }
    SlopeOfLine(r, c, 0.0);
  }

  lemma ReciprocalSlope(f: real -> real, a: Dual, r: real -> real)
    requires HasSlope(f, a.v, a.t) && a.v != 0.0 && forall h: real :: r(h) == Quotient(1.0, f(h))
    ensures HasSlope(r, DualReciprocal(a).v, DualReciprocal(a).t)
  {
    hide HasSlope;
    forall h: real | f(h) != 0.0 ensures Times(f(h), r(h)) == 1.0 {
      assert r(h) == Quotient(1.0, f(h));
      QuotientTimes(1.0, f(h));
    }
    var w := Quotient(1.0, a.v);
    QuotientTimes(1.0, a.v);
    SlopeOfInverse(f, a.v, a.t, w, r);
    SquaredQuotient(a.v, a.t, w);
    assert DualReciprocal(a) == Dual(w, -Times(a.t, Times(w, w)));
  }

  lemma SquaredQuotient(v: real, t: real, w: real)
    requires v != 0.0 && w * v == 1.0
    ensures Quotient(-t, v * v) == -Times(t, Times(w, w))
  {
    NonZeroProduct(v, v);
    var q := -(t * (w * w));
    assert q * (v * v) == -t by {
      assert (t * (w * w)) * (v * v) == t * ((w * v) * (w * v));
    }
    UniqueQuotient(-t, v * v, q);
  }

  lemma DivSlope(f: real -> real, a: Dual, g: real -> real, b: Dual, r: real -> real)
    requires HasSlope(f, a.v, a.t) && HasSlope(g, b.v, b.t) && b.v != 0.0
    requires forall h: real :: r(h) == Quotient(f(h), g(h))
    ensures HasSlope(r, DualMul(a, DualReciprocal(b)).v, DualMul(a, DualReciprocal(b)).t)
  {
    var inverse := (h: real) => Quotient(1.0, g(h));
    hide HasSlope, DualMul, Quotient, Times;
    ReciprocalSlope(g, b, inverse);
    forall h: real ensures r(h) == Times(f(h), inverse(h)) {
      QuotientIsTimes(f(h), g(h));
    }
    MulSlope(f, a, inverse, DualReciprocal(b), r);
  }

  lemma QuotientIsTimes(a: real, b: real)
    ensures Quotient(a, b) == Times(a, Quotient(1.0, b))
  {
    if b != 0.0 {
      QuotientTimes(a, b);
    }
  }

  lemma PowerIsTimes(x: real, n: nat, a: Dual)
    requires n > 0
    ensures Power(x, n) == Times(x, Power(x, n - 1)) && DualPower(a, n) == DualMul(a, DualPower(a, n - 1))
  {
    hide DualMul;
  }

  function PowerOf(f: real -> real, n: int): real -> real {
    h => Power(f(h), n)
  }

  lemma {:induction false} PositivePowerSlope(f: real -> real, a: Dual, n: nat)
    requires HasSlope(f, a.v, a.t)
    ensures HasSlope(PowerOf(f, n), DualPower(a, n).v, DualPower(a, n).t)
  {
    hide HasSlope, Power, DualPower, PowerOf;
    if n == 0 {
      ZerothPowerSlope(f, a);
    } else {
      PositivePowerSlope(f, a, n - 1);
      NextPowerSlope(f, a, n);
    }
  }

  lemma ZerothPower(x: real, a: Dual)
    ensures Power(x, 0) == 1.0 && DualPower(a, 0) == Dual(1.0, 0.0)
  {
  }

  lemma ZerothPowerSlope(f: real -> real, a: Dual)
    ensures HasSlope(PowerOf(f, 0), DualPower(a, 0).v, DualPower(a, 0).t)
  {
    hide HasSlope, Power, DualPower;
    ZerothPower(0.0, a);
    forall h: real ensures PowerOf(f, 0)(h) == 1.0 {
      ZerothPower(f(h), a);
    }
    ConstantSlope(1.0, PowerOf(f, 0));
  }

  lemma NextPowerSlope(f: real -> real, a: Dual, n: nat)
    requires n > 0 && HasSlope(f, a.v, a.t)
    requires HasSlope(PowerOf(f, n - 1), DualPower(a, n - 1).v, DualPower(a, n - 1).t)
    ensures HasSlope(PowerOf(f, n), DualPower(a, n).v, DualPower(a, n).t)
  {
    hide HasSlope, Power, DualPower, DualMul, Times;
    PowerIsTimes(0.0, n, a);
    forall h: real ensures PowerOf(f, n)(h) == Times(f(h), PowerOf(f, n - 1)(h)) {
      PowerIsTimes(f(h), n, a);
    }
    MulSlope(f, a, PowerOf(f, n - 1), DualPower(a, n - 1), PowerOf(f, n));
  }

  lemma NegativePowerIs(x: real, a: Dual, n: int)
    requires n < 0
    ensures Power(x, n) == Quotient(1.0, Power(x, -n)) && DualPower(a, n) == DualReciprocal(DualPower(a, -n))
  {
    hide Quotient, DualReciprocal;
  }

  lemma PowerSlope(f: real -> real, a: Dual, n: int)
    requires HasSlope(f, a.v, a.t) && (n >= 0 || a.v != 0.0)
    ensures HasSlope(PowerOf(f, n), DualPower(a, n).v, DualPower(a, n).t)
  {
    hide HasSlope, DualReciprocal, Power, DualPower, Quotient;
    if n >= 0 {
      PositivePowerSlope(f, a, n);
    } else {
      PositivePowerSlope(f, a, -n);
      PositivePowerRule(a, -n);
      PowerNonZero(a.v, -n);
      NegativePowerIs(0.0, a, n);
      forall h: real ensures PowerOf(f, n)(h) == Quotient(1.0, PowerOf(f, -n)(h)) {
        NegativePowerIs(f(h), a, n);
      }
      ReciprocalSlope(PowerOf(f, -n), DualPower(a, -n), PowerOf(f, n));
    }
  }

  lemma LinearSlope(op: Op, f: real -> real, a: Dual, r: real -> real)
    requires op.Negate? || op.AddScalar? || op.MulScalar?
    requires HasSlope(f, a.v, a.t) && forall h: real :: r(h) == Compute(op, [f(h)])
    ensures HasSlope(r, DualCompute(op, [a]).v, DualCompute(op, [a]).t)
  {
    hide HasSlope;
    if op.AddScalar? {
      var constant := (h: real) => op.c;
      ConstantSlope(op.c, constant);
      forall h: real ensures r(h) == f(h) + constant(h) {
        assert r(h) == Compute(op, [f(h)]);
      }
      SlopeOfSum(f, a.v, a.t, constant, op.c, 0.0, r);
    } else {
      var c := if op.MulScalar? then op.c else -1.0;
      forall h: real ensures r(h) == Times(f(h), c) {
        assert r(h) == Compute(op, [f(h)]);
      }
      SlopeOfMultiple(f, a.v, a.t, c, r);
      assert DualCompute(op, [a]) == Dual(Times(a.v, c), Times(a.t, c));
    }
  }

  lemma SameSlope(f: real -> real, a: Dual, r: real -> real)
    requires HasSlope(f, a.v, a.t) && forall h: real :: f(h) == r(h)
    ensures HasSlope(r, a.v, a.t)
  {
    hide Times;
    var d: real, b: real :| Close(f, a.v, a.t, d, b);
    forall h: real | Within(h, d) ensures Good(r, a.v, a.t, b, h) {
      assert Good(f, a.v, a.t, b, h) && f(h) == r(h);
    }
    CloseIs(r, a.v, a.t, d, b);
  }

  lemma OneInputSlope(op: Op, f: real -> real, a: Dual, r: real -> real)
    requires Arity(op) == 1 && Regular(op, [a.v])
    requires HasSlope(f, a.v, a.t) && forall h: real :: r(h) == Compute(op, [f(h)])
    ensures HasSlope(r, DualCompute(op, [a]).v, DualCompute(op, [a]).t)
  {
    hide HasSlope, DualMul, DualReciprocal, Power, DualPower, Quotient;
    match op {
      case DivScalar(c) =>
        var constant := (h: real) => c;
        ConstantSlope(c, constant);
        forall h: real ensures r(h) == Quotient(f(h), constant(h)) {
          assert r(h) == Compute(op, [f(h)]);
        }
        DivSlope(f, a, constant, Dual(c, 0.0), r);
      case PowerScalar(n) =>
        forall h: real ensures PowerOf(f, n)(h) == r(h) {
          assert r(h) == Compute(op, [f(h)]);
        }
        PowerSlope(f, a, n);
        SameSlope(PowerOf(f, n), DualPower(a, n), r);
      case _ => LinearSlope(op, f, a, r);
    }
  }

  lemma TwoInputSlope(op: Op, f: real -> real, a: Dual, g: real -> real, b: Dual, r: real -> real)
    requires Arity(op) == 2 && Regular(op, [a.v, b.v])
    requires HasSlope(f, a.v, a.t) && HasSlope(g, b.v, b.t)
    requires forall h: real :: r(h) == Compute(op, [f(h), g(h)])
    ensures HasSlope(r, DualCompute(op, [a, b]).v, DualCompute(op, [a, b]).t)
  {
    hide HasSlope, DualMul, DualReciprocal, Quotient;
    forall h: real ensures
        r(h) == if op.Add? then f(h) + g(h) else if op.Mul? then Times(f(h), g(h)) else Quotient(f(h), g(h)) {
      assert r(h) == Compute(op, [f(h), g(h)]);
    }
    match op {
      case Add => SlopeOfSum(f, a.v, a.t, g, b.v, b.t, r);
      case Mul => MulSlope(f, a, g, b, r);
      case Div => DivSlope(f, a, g, b, r);
    }
  }

  // ----- moving the leaves -----

  /** The graph with every leaf moved by h along the direction. */
  function Moved(g: Graph, d: Direction, h: real): (moved: Graph)
    requires WellFormed(g)
    ensures WellFormed(moved) && |moved| == |g|
    ensures forall x: nat | x < |g| :: Inputs(moved, x) == Inputs(g, x)
  {
    seq(|g|, x requires 0 <= x < |g| =>
      if g[x].Leaf? then Leaf(g[x].value + Times(h, d(x)), g[x].requiresGrad) else g[x])
  }

  /** The value of x as a function of how far the leaves have moved. */
  function Along(g: Graph, d: Direction, x: nat): real -> real
    requires WellFormed(g) && x < |g|
  {
    h => Value(Moved(g, d, h), x)
  }

  lemma AlongApply(g: Graph, d: Direction, x: nat, h: real)
    requires WellFormed(g) && x < |g| && g[x].Apply?
    ensures var ins := Inputs(g, x);
            Along(g, d, x)(h)
            == Compute(g[x].op, if |ins| == 1 then [Along(g, d, ins[0])(h)]
                                else [Along(g, d, ins[0])(h), Along(g, d, ins[1])(h)])
  {
    var moved := Moved(g, d, h);
    var args := Args(moved, x);
    hide Compute;
    if |args| == 1 {
      assert args == [args[0]];
    } else {
      assert args == [args[0], args[1]];
    }
  }

  lemma {:induction false} TangentIsSlope(g: Graph, d: Direction, x: nat)
    requires WellFormed(g) && x < |g| && RegularFrom(g, x)
    ensures HasSlope(Along(g, d, x), Value(g, x), Tangent(g, d, x))
    decreases x
  {
    ForwardValue(g, d, x);
    if g[x].Leaf? {
      forall h: real ensures Along(g, d, x)(h) == g[x].value + Times(h, d(x)) {
      }
      SlopeOfLine(Along(g, d, x), g[x].value, d(x));
    } else {
      var ins, op := Inputs(g, x), g[x].op;
      var args := ForwardArgs(g, d, x);
      forall j: nat | j < |ins| ensures HasSlope(Along(g, d, ins[j]), args[j].v, args[j].t) && args[j].v == Args(g, x)[j] {
        RegularInputs(g, x, j);
        ForwardValue(g, d, ins[j]);
        TangentIsSlope(g, d, ins[j]);
      }
      OperationSlope(g, d, x);
    }
  }

  lemma OperationSlope(g: Graph, d: Direction, x: nat)
    requires WellFormed(g) && x < |g| && RegularFrom(g, x) && g[x].Apply?
    requires forall j: nat | j < |Inputs(g, x)| ::
               && HasSlope(Along(g, d, Inputs(g, x)[j]), ForwardArgs(g, d, x)[j].v, ForwardArgs(g, d, x)[j].t)
               && ForwardArgs(g, d, x)[j].v == Args(g, x)[j]
    ensures HasSlope(Along(g, d, x), Forward(g, d, x).v, Tangent(g, d, x))
  {
    RootReaches(g, x);
    var ins, op, r := Inputs(g, x), g[x].op, Along(g, d, x);
    var args, vals := ForwardArgs(g, d, x), Args(g, x);
    assert Regular(op, vals);
    assert Forward(g, d, x) == DualCompute(op, args);
    hide HasSlope, DualCompute, Regular, RegularFrom, Reaches, Forward, Args, ForwardArgs;
    forall h: real ensures
        r(h) == Compute(op, if |ins| == 1 then [Along(g, d, ins[0])(h)]
                            else [Along(g, d, ins[0])(h), Along(g, d, ins[1])(h)]) {
      AlongApply(g, d, x, h);
    }
    hide Along, Compute;
    if |ins| == 1 {
      assert args == [args[0]] && vals == [vals[0]];
      OneInputSlope(op, Along(g, d, ins[0]), args[0], r);
    } else {
      assert args == [args[0], args[1]] && vals == [vals[0], vals[1]];
      TwoInputSlope(op, Along(g, d, ins[0]), args[0], Along(g, d, ins[1]), args[1], r);
    }
  }

  // ----- main result -----

  /** Directions that move only leaves that require a gradient. */
  ghost predicate MovesTrainable(g: Graph, d: Direction) {
    forall x: nat | x < |g| && g[x].Leaf? && !g[x].requiresGrad :: d(x) == 0.0
  }

  function GradWeight(g: Graph, out: nat, grad: map<nat, real>, d: Direction): int -> real
    requires WellFormed(g) && out < |g|
  {
    x => if 0 <= x < |g| && Graded(g, out, x) && x in grad then Times(grad[x], d(x)) else 0.0
  }

  /**
   After a backward pass with seed 1, the gradients are the derivative of the output: along every
   direction that moves the trainable leaves, the output's slope is the sum of gradient times
   speed, in the sense that the first-order estimate is off by at most a constant times h * h.
   */
  lemma GradientsAreTheDerivative(g: Graph, out: nat, before: map<nat, real>, grad: map<nat, real>, d: Direction)
    requires WellFormed(g) && out < |g| && RegularFrom(g, out) && MovesTrainable(g, d)
    requires Differentiated(g, out, 1.0, before, grad)
    ensures HasSlope(Along(g, d, out), Value(g, out), Sum(|g|, GradWeight(g, out, grad, d)))
  {
    SeededGradients(g, out, 1.0, before, grad, d);
    TangentIsSlope(g, d, out);
    hide HasSlope, Along, Tangent, Differentiated, RegularFrom, Sum, GradWeight;
    TimesLaws(Tangent(g, d, out), 0.0, 0.0);
  }

  /** With any seed, the gradients give the seed times the derivative. */
  lemma SeededGradients(g: Graph, out: nat, seed: real, before: map<nat, real>, grad: map<nat, real>, d: Direction)
    requires WellFormed(g) && out < |g| && RegularFrom(g, out) && MovesTrainable(g, d)
    requires Differentiated(g, out, seed, before, grad)
    ensures Times(seed, Tangent(g, d, out)) == Sum(|g|, GradWeight(g, out, grad, d))
  {
    AdjointsTransposeTangents(g, out, seed, d);
    hide Tangent, Sum, RegularFrom, Adjoint, Reaches, Times;
    forall x: nat | x < |g| ensures LeafWeight(g, out, seed, d)(x) == GradWeight(g, out, grad, d)(x) {
      if g[x].Leaf? && !Graded(g, out, x) {
        if g[x].requiresGrad {
          UnreachedAdjoint(g, out, seed, x);
        }
        TimesLaws(Adjoint(g, out, seed, x), d(x), 0.0);
        TimesLaws(d(x), 0.0, 0.0);
        TimesLaws(Adjoint(g, out, seed, x), 0.0, 0.0);
      }
    }
    SumCongruence(|g|, LeafWeight(g, out, seed, d), GradWeight(g, out, grad, d));
  }
}
