/**
 Sparse logistic regression: the gradient of a row as a function of the weights, the local
 baseline that trains without a server, and the loops that compute both over dictionaries.
 The logistic function is a parameter; weights read as 0 where a dictionary has no entry.
 */
module SparseLr {
  import opened Arithmetic
  import opened Decimals
  import opened Sums
  import opened SparseProtocol

  datatype Feature = Feature(index: nat, value: real)

  datatype Row = Row(features: seq<Feature>, target: real)

  type Weights = map<Key, real>

  const BIAS_KEY: Key := "bias"

  function FeatureKey(index: nat): Key { "feature:" + PrintNat(index) }

  /** Every feature has its own key, and none has the key of the bias. */
  lemma FeatureKeysDiffer(i: nat, j: nat)
    ensures FeatureKey(i) == FeatureKey(j) <==> i == j
    ensures FeatureKey(i) != BIAS_KEY
  {
    PrintedApart(i, j);
    hide PrintNat;
    assert FeatureKey(i)[8..] == PrintNat(i) && FeatureKey(j)[8..] == PrintNat(j);
    assert FeatureKey(i)[0] == 'f' && BIAS_KEY[0] == 'b';
  }

  function Get(w: Weights, k: Key): real { if k in w then w[k] else 0.0 }

  // ----- gradients as functions of the weights -----

  function Logit(w: Key -> real, row: Row, n: nat): real
    requires n <= |row.features|
  {
    if n == 0 then w(BIAS_KEY)
    else Logit(w, row, n - 1) + Times(w(FeatureKey(row.features[n - 1].index)), row.features[n - 1].value)
  }

  function RowError(sigmoid: real -> real, w: Key -> real, row: Row): real {
    sigmoid(Logit(w, row, |row.features|)) - row.target
  }

  function FeatureShare(error: real, row: Row, n: nat, k: Key): real
    requires n <= |row.features|
  {
    if n == 0 then (if k == BIAS_KEY then error else 0.0)
    else
      FeatureShare(error, row, n - 1, k)
      + if FeatureKey(row.features[n - 1].index) == k then Times(error, row.features[n - 1].value) else 0.0
  }

  function RowGradient(sigmoid: real -> real, w: Key -> real, row: Row, k: Key): real {
    FeatureShare(RowError(sigmoid, w, row), row, |row.features|, k)
  }

  /** The gradient of a row reads only the bias and the row's own features. */
  predicate Reads(row: Row, k: Key) {
    k == BIAS_KEY || exists i | 0 <= i < |row.features| :: FeatureKey(row.features[i].index) == k
  }

  lemma {:induction false} LogitLocal(w: Key -> real, v: Key -> real, row: Row, n: nat)
    requires n <= |row.features| && forall k | Reads(row, k) :: w(k) == v(k)
    ensures Logit(w, row, n) == Logit(v, row, n)
  {
    if n == 0 {
      assert Reads(row, BIAS_KEY);
    } else {
      LogitLocal(w, v, row, n - 1);
      assert Reads(row, FeatureKey(row.features[n - 1].index));
    }
  }

  /** Weights that agree on the keys a row reads give it the same gradient. */
  lemma RowGradientLocal(sigmoid: real -> real, w: Key -> real, v: Key -> real, row: Row, k: Key)
    requires forall k | Reads(row, k) :: w(k) == v(k)
    ensures RowGradient(sigmoid, w, row, k) == RowGradient(sigmoid, v, row, k)
  {
    LogitLocal(w, v, row, |row.features|);
  }

  /** Sum of f over the listed rows. */
  function SumRows(rows: seq<int>, f: int -> real): real {
    if rows == [] then 0.0 else SumRows(rows[..|rows| - 1], f) + f(rows[|rows| - 1])
  }

  lemma {:induction false} SumRowsSame(rows: seq<int>, f: int -> real, g: int -> real)
    requires forall i | i in rows :: f(i) == g(i)
    ensures SumRows(rows, f) == SumRows(rows, g)
  {
    if rows != [] {
      var last := rows[|rows| - 1];
      assert last in rows && f(last) == g(last);
      SumRowsSame(rows[..|rows| - 1], f, g);
    }
  }

  lemma {:induction false} SumRowsConcat(a: seq<int>, b: seq<int>, f: int -> real)
    ensures SumRows(a + b, f) == SumRows(a, f) + SumRows(b, f)
  {
    if b == [] {
      assert a + b == a;
    } else {
      SumRowsConcat(a, b[..|b| - 1], f);
      assert (a + b)[..|a + b| - 1] == a + b[..|b| - 1];
    }
  }

  // ----- every row belongs to exactly one worker -----

  /** The rows first, first + stride, ... below total. */
  function LocalRows(first: nat, total: nat, stride: nat): (rows: seq<int>)
    requires stride > 0
    ensures forall r | r in rows :: first <= r < total
    decreases total - first
  {
    if first >= total then [] else [first] + LocalRows(first + stride, total, stride)
  }

  lemma {:induction false} LocalRowsGrow(first: nat, total: nat, stride: nat)
    requires stride > 0
    ensures LocalRows(first, total + 1, stride)
      == LocalRows(first, total, stride) + if first <= total && (total - first) % stride == 0 then [total] else []
    decreases total + 1 - first
  {
    if first < total {
      LocalRowsGrow(first + stride, total, stride);
      if first + stride <= total {
        ModShift(total - first, stride);
      } else {
        ModSmall(total - first, stride);
      }
    } else if first == total {
      assert LocalRows(first + stride, total + 1, stride) == [];
    }
  }

  /** Splitting the rows by stride over the workers neither drops nor repeats a row. */
  lemma {:induction false} StrideSplit(total: nat, workers: nat, f: int -> real, share: int -> real)
    requires workers > 0
    requires forall w | 0 <= w < workers :: share(w) == SumRows(LocalRows(w, total, workers), f)
    ensures Sum(workers, share) == Sum(total, f)
  {
    if total == 0 {
      SumZero(workers, share);
    } else {
      var n := total - 1;
      var before := Shares(n, workers, f);
      hide LocalRows, SumRows, Sum;
      StrideSplit(n, workers, f, before);
      SumUnfolds(total, f);
      forall w | 0 <= w < workers ensures share(w) == before(w) + if w == n % workers then f(n) else 0.0 {
        OneMoreRow(w, n, workers, f);
      }
      OwnerAdds(workers, n % workers, f(n), before, share);
    }
  }

  function Shares(total: nat, workers: nat, f: int -> real): int -> real
    requires workers > 0
  {
    w => if 0 <= w < workers then SumRows(LocalRows(w, total, workers), f) else 0.0
  }

  lemma OwnerAdds(workers: nat, owner: nat, value: real, before: int -> real, share: int -> real)
    requires owner < workers
    requires forall w | 0 <= w < workers :: share(w) == before(w) + if w == owner then value else 0.0
    ensures Sum(workers, share) == Sum(workers, before) + value
  {
    var added := (w: int) => if w == owner then value else 0.0;
    hide Sum;
    SumAdd(workers, before, added, share);
    SumSingle(workers, owner, added);
  }

  /** One more row belongs to one worker only. */
  lemma OneMoreRow(w: nat, n: nat, workers: nat, f: int -> real)
    requires w < workers
    ensures SumRows(LocalRows(w, n + 1, workers), f)
            == SumRows(LocalRows(w, n, workers), f) + if w == n % workers then f(n) else 0.0
  {
    LocalRowsGrow(w, n, workers);
    OwnerUnique(n, workers, w);
    if w == n % workers {
      assert LocalRows(w, n + 1, workers) == LocalRows(w, n, workers) + [n];
      SumRowsConcat(LocalRows(w, n, workers), [n], f);
      assert [n][..0] == [];
    } else {
      assert LocalRows(w, n + 1, workers) == LocalRows(w, n, workers);
    }
  }

  lemma OwnerUnique(n: int, workers: int, w: int)
    requires workers > 0 && n >= 0 && 0 <= w < workers
    ensures w == n % workers <==> w <= n && (n - w) % workers == 0
  {
    if w == n % workers {
      assert n - w == (n / workers) * workers;
      assert n / workers >= 0;
      DivModUnique(n - w, workers, n / workers, 0);
    } else if w <= n && (n - w) % workers == 0 {
      DivModUnique(n, workers, (n - w) / workers, w);
      assert false;
    }
  }

  // ----- the baseline -----

  datatype Config = Config(data: seq<Row>, epochs: nat, batchSize: nat, learningRate: real, sigmoid: real -> real)

  function ScaleOf(learningRate: real, samples: nat): real {
    -learningRate / (if samples >= 1 then samples as real else 1.0)
  }

  function Scale(c: Config): real { ScaleOf(c.learningRate, |c.data|) }

  function RowTerm(c: Config, w: Key -> real, k: Key): int -> real {
    i => if 0 <= i < |c.data| then RowGradient(c.sigmoid, w, c.data[i], k) else 0.0
  }

  /** The weights full-batch training holds after so many epochs. */
  function WeightsAfter(c: Config, epochs: nat): Key -> real {
    if epochs == 0 then (k: Key) => 0.0
    else
      var w := WeightsAfter(c, epochs - 1);
      (k: Key) => w(k) + Times(Scale(c), Sum(|c.data|, RowTerm(c, w, k)))
  }

  // ----- the same gradient and step, said without the loops -----

  /** The terms a row's features add to its score. */
  function ScoreTerms(w: Key -> real, row: Row): int -> real {
    n => if 0 <= n < |row.features|
         then Times(w(FeatureKey(row.features[n].index)), row.features[n].value) else 0.0
  }

  /** Prediction minus target. */
  function Residual(sigmoid: real -> real, w: Key -> real, row: Row): real {
    sigmoid(w(BIAS_KEY) + Sum(|row.features|, ScoreTerms(w, row))) - row.target
  }

  function ValuesOf(row: Row, index: nat): int -> real {
    n => if 0 <= n < |row.features| && row.features[n].index == index then row.features[n].value else 0.0
  }

  lemma {:induction false} LogitIsSum(w: Key -> real, row: Row, n: nat)
    requires n <= |row.features|
    ensures Logit(w, row, n) == w(BIAS_KEY) + Sum(n, ScoreTerms(w, row))
  {
    if n > 0 {
      LogitIsSum(w, row, n - 1);
    }
  }

  lemma {:induction false} FeatureShareIsSum(error: real, row: Row, n: nat, index: nat)
    requires n <= |row.features|
    ensures FeatureShare(error, row, n, FeatureKey(index)) == Times(error, Sum(n, ValuesOf(row, index)))
    ensures FeatureShare(error, row, n, BIAS_KEY) == error
  {
    hide FeatureKey;
    FeatureKeysDiffer(index, index);
    if n > 0 {
      FeatureKeysDiffer(row.features[n - 1].index, index);
      FeatureShareIsSum(error, row, n - 1, index);
    }
  }

  /** Neither the bias nor a feature. */
  ghost predicate Untrained(k: Key) {
    k != BIAS_KEY && forall index: nat :: FeatureKey(index) != k
  }

  lemma {:induction false} NoShare(error: real, row: Row, n: nat, k: Key)
    requires n <= |row.features| && Untrained(k)
    ensures FeatureShare(error, row, n, k) == 0.0
  {
    if n > 0 {
      NoShare(error, row, n - 1, k);
      hide FeatureKey;
      assert FeatureKey(row.features[n - 1].index) != k;
    }
  }

  /** A row's gradient: the residual at the bias, residual times value at a feature, zero elsewhere. */
  lemma RowGradientExact(sigmoid: real -> real, w: Key -> real, row: Row)
    ensures RowGradient(sigmoid, w, row, BIAS_KEY) == Residual(sigmoid, w, row)
    ensures forall index: nat :: RowGradient(sigmoid, w, row, FeatureKey(index))
              == Times(Residual(sigmoid, w, row), Sum(|row.features|, ValuesOf(row, index)))
    ensures forall k: Key | Untrained(k) ::
              RowGradient(sigmoid, w, row, k) == 0.0
  {
    SameError(sigmoid, w, row);
    hide *;
    BiasGradient(sigmoid, w, row);
    forall index: nat
      ensures RowGradient(sigmoid, w, row, FeatureKey(index))
        == Times(Residual(sigmoid, w, row), Sum(|row.features|, ValuesOf(row, index)))
    {
      FeatureGradient(sigmoid, w, row, index);
    }
    forall k: Key | Untrained(k) ensures RowGradient(sigmoid, w, row, k) == 0.0 {
      NoGradient(sigmoid, w, row, k);
    }
  }

  lemma SameError(sigmoid: real -> real, w: Key -> real, row: Row)
    ensures RowError(sigmoid, w, row) == Residual(sigmoid, w, row)
  {
    LogitIsSum(w, row, |row.features|);
    hide Logit, Sum, ScoreTerms;
  }

  lemma BiasGradient(sigmoid: real -> real, w: Key -> real, row: Row)
    ensures RowGradient(sigmoid, w, row, BIAS_KEY) == Residual(sigmoid, w, row)
  {
    SameError(sigmoid, w, row);
    FeatureShareIsSum(RowError(sigmoid, w, row), row, |row.features|, 0);
    hide FeatureShare, RowError, Residual, Sum, FeatureKey;
  }

  lemma FeatureGradient(sigmoid: real -> real, w: Key -> real, row: Row, index: nat)
    ensures RowGradient(sigmoid, w, row, FeatureKey(index))
              == Times(Residual(sigmoid, w, row), Sum(|row.features|, ValuesOf(row, index)))
  {
    SameError(sigmoid, w, row);
    FeatureShareIsSum(RowError(sigmoid, w, row), row, |row.features|, index);
    hide FeatureShare, RowError, Residual, Sum, FeatureKey;
  }

  lemma NoGradient(sigmoid: real -> real, w: Key -> real, row: Row, k: Key)
    requires Untrained(k)
    ensures RowGradient(sigmoid, w, row, k) == 0.0
  {
    NoShare(RowError(sigmoid, w, row), row, |row.features|, k);
    hide FeatureShare, RowError, Untrained;
  }

  function ResidualOf(c: Config, w: Key -> real): int -> real {
    i => if 0 <= i < |c.data| then Residual(c.sigmoid, w, c.data[i]) else 0.0
  }

  function PullOf(c: Config, w: Key -> real, index: nat): int -> real {
    i => if 0 <= i < |c.data|
         then Times(Residual(c.sigmoid, w, c.data[i]), Sum(|c.data[i].features|, ValuesOf(c.data[i], index)))
         else 0.0
  }

  function SampleCount(c: Config): real { if |c.data| == 0 then 1.0 else |c.data| as real }

  /** A change against a gradient sum: times the number of samples it is minus the rate times the sum. */
  ghost predicate FallsBy(c: Config, change: real, sum: real) {
    change * SampleCount(c) == -(c.learningRate * sum)
  }

  /** One full-batch step: weights move against the summed residuals, by the rate over the samples. */
  ghost predicate StepsDown(c: Config, w: Key -> real, v: Key -> real) {
    && FallsBy(c, v(BIAS_KEY) - w(BIAS_KEY), Sum(|c.data|, ResidualOf(c, w)))
    && (forall index: nat :: FallsBy(c, v(FeatureKey(index)) - w(FeatureKey(index)), Sum(|c.data|, PullOf(c, w, index))))
    && forall k: Key | Untrained(k) :: v(k) == w(k)
  }

  /** Full-batch descent from zero weights. */
  ghost predicate Descends(c: Config, path: nat -> Key -> real) {
    (forall k: Key :: path(0)(k) == 0.0) && forall e: nat :: StepsDown(c, path(e), path(e + 1))
  }

  lemma ScaledDown(rate: real, n: real, s: real, d: real)
    requires n > 0.0
    ensures d * n == -(rate * s) <==> d == Times(-rate / n, s)
  {
    assert (-rate / n) * n == -rate;
    assert Times(-rate / n, s) * n == -(rate * s) by {
      assert ((-rate / n) * s) * n == ((-rate / n) * n) * s;
    }
    if d * n == -(rate * s) {
      assert (d - Times(-rate / n, s)) * n == 0.0;
    }
  }

  lemma BiasTerms(c: Config, w: Key -> real)
    ensures Sum(|c.data|, RowTerm(c, w, BIAS_KEY)) == Sum(|c.data|, ResidualOf(c, w))
  {
    hide RowGradient, Residual, Sum;
    forall i | 0 <= i < |c.data| ensures RowTerm(c, w, BIAS_KEY)(i) == ResidualOf(c, w)(i) {
      RowGradientExact(c.sigmoid, w, c.data[i]);
    }
    SumCongruence(|c.data|, RowTerm(c, w, BIAS_KEY), ResidualOf(c, w));
  }

  lemma FeatureTerms(c: Config, w: Key -> real, index: nat)
    ensures Sum(|c.data|, RowTerm(c, w, FeatureKey(index))) == Sum(|c.data|, PullOf(c, w, index))
  {
    hide RowGradient, Residual, Sum, FeatureKey, ValuesOf;
    forall i | 0 <= i < |c.data| ensures RowTerm(c, w, FeatureKey(index))(i) == PullOf(c, w, index)(i) {
      RowGradientExact(c.sigmoid, w, c.data[i]);
    }
    SumCongruence(|c.data|, RowTerm(c, w, FeatureKey(index)), PullOf(c, w, index));
  }

  lemma OtherTerms(c: Config, w: Key -> real, k: Key)
    requires Untrained(k)
    ensures Sum(|c.data|, RowTerm(c, w, k)) == 0.0
  {
    hide RowGradient, Sum, Untrained;
    forall i | 0 <= i < |c.data| ensures RowTerm(c, w, k)(i) == 0.0 {
      RowGradientExact(c.sigmoid, w, c.data[i]);
    }
    SumZero(|c.data|, RowTerm(c, w, k));
  }

  ghost predicate MovesAt(c: Config, w: Key -> real, v: Key -> real, k: Key) {
    v(k) == w(k) + Times(Scale(c), Sum(|c.data|, RowTerm(c, w, k)))
  }

  ghost predicate ScaledMove(c: Config, w: Key -> real, v: Key -> real) {
    forall k: Key :: MovesAt(c, w, v, k)
  }

  lemma MovesDownAt(c: Config, w: Key -> real, v: Key -> real, k: Key, s: real)
    requires s == Sum(|c.data|, RowTerm(c, w, k))
    ensures MovesAt(c, w, v, k) <==> FallsBy(c, v(k) - w(k), s)
    ensures s == 0.0 ==> (MovesAt(c, w, v, k) <==> v(k) == w(k))
  {
    hide Sum, RowTerm;
    ScaledDown(c.learningRate, SampleCount(c), s, v(k) - w(k));
    if s == 0.0 {
      hide SampleCount, Scale;
      assert Times(Scale(c), s) == 0.0;
    }
  }

  lemma FeatureMoves(c: Config, w: Key -> real, v: Key -> real, index: nat)
    ensures MovesAt(c, w, v, FeatureKey(index)) <==>
            FallsBy(c, v(FeatureKey(index)) - w(FeatureKey(index)), Sum(|c.data|, PullOf(c, w, index)))
  {
    hide *;
    FeatureTerms(c, w, index);
    MovesDownAt(c, w, v, FeatureKey(index), Sum(|c.data|, PullOf(c, w, index)));
  }

  lemma OtherMoves(c: Config, w: Key -> real, v: Key -> real, k: Key)
    requires Untrained(k)
    ensures MovesAt(c, w, v, k) <==> v(k) == w(k)
  {
    hide *;
    OtherTerms(c, w, k);
    MovesDownAt(c, w, v, k, 0.0);
  }

  lemma MovesDown(c: Config, w: Key -> real, v: Key -> real)
    ensures ScaledMove(c, w, v) <==> StepsDown(c, w, v)
  {
    BiasTerms(c, w);
    MovesDownAt(c, w, v, BIAS_KEY, Sum(|c.data|, ResidualOf(c, w)));
    hide ResidualOf, PullOf, Sum, FeatureKey, MovesAt, FallsBy;
    if ScaledMove(c, w, v) {
      forall index: nat
        ensures FallsBy(c, v(FeatureKey(index)) - w(FeatureKey(index)), Sum(|c.data|, PullOf(c, w, index)))
      {
        FeatureMoves(c, w, v, index);
      }
      forall k: Key | Untrained(k) ensures v(k) == w(k) {
        OtherMoves(c, w, v, k);
      }
    }
    if StepsDown(c, w, v) {
      forall k: Key ensures MovesAt(c, w, v, k) {
        if Untrained(k) {
          OtherMoves(c, w, v, k);
        } else if k != BIAS_KEY {
          var index: nat :| FeatureKey(index) == k;
          FeatureMoves(c, w, v, index);
        }
      }
    }
  }

  /** Full-batch descent is what WeightsAfter computes, and nothing else is. */
  lemma DescentExact(c: Config, path: nat -> Key -> real)
    ensures Descends(c, path) <==> forall e: nat, k: Key :: path(e)(k) == WeightsAfter(c, e)(k)
  {
    hide StepsDown, WeightsAfter;
    if Descends(c, path) {
      forall e: nat, k: Key ensures path(e)(k) == WeightsAfter(c, e)(k) {
        DescentFollows(c, path, e);
      }
    }
    if forall e: nat, k: Key :: path(e)(k) == WeightsAfter(c, e)(k) {
      forall k: Key ensures path(0)(k) == 0.0 {
        assert path(0)(k) == WeightsAfter(c, 0)(k);
        EpochMoves(c, 0);
      }
      forall e: nat ensures StepsDown(c, path(e), path(e + 1)) {
        EpochMoves(c, e);
        SameMoves(c, WeightsAfter(c, e), WeightsAfter(c, e + 1), path(e), path(e + 1));
        MovesDown(c, path(e), path(e + 1));
      }
    }
  }

  lemma EpochMoves(c: Config, e: nat)
    ensures ScaledMove(c, WeightsAfter(c, e), WeightsAfter(c, e + 1))
    ensures forall k: Key :: WeightsAfter(c, 0)(k) == 0.0
  {
    hide RowTerm, Sum, Times, Scale;
  }

  lemma SameMoves(c: Config, w: Key -> real, v: Key -> real, x: Key -> real, y: Key -> real)
    requires ScaledMove(c, w, v) && (forall k: Key :: x(k) == w(k))
    ensures ScaledMove(c, x, y) <==> forall k: Key :: y(k) == v(k)
  {
    hide RowTerm, Sum, Times, Scale;
    forall k: Key ensures Sum(|c.data|, RowTerm(c, x, k)) == Sum(|c.data|, RowTerm(c, w, k)) {
      SameTerms(c, x, w, k);
      SumCongruence(|c.data|, RowTerm(c, x, k), RowTerm(c, w, k));
    }
    forall k: Key ensures MovesAt(c, x, y, k) <==> y(k) == v(k) {
      assert MovesAt(c, w, v, k);
    }
    if ScaledMove(c, x, y) {
      forall k: Key ensures y(k) == v(k) {
        assert MovesAt(c, x, y, k);
      }
    }
  }

  lemma {:induction false} DescentFollows(c: Config, path: nat -> Key -> real, e: nat)
    requires Descends(c, path)
    ensures forall k: Key :: path(e)(k) == WeightsAfter(c, e)(k)
  {
    hide StepsDown, WeightsAfter;
    if e == 0 {
      EpochMoves(c, 0);
    } else {
      DescentFollows(c, path, e - 1);
      EpochMoves(c, e - 1);
      assert StepsDown(c, path(e - 1), path(e - 1 + 1));
      MovesDown(c, path(e - 1), path(e));
      SameMoves(c, WeightsAfter(c, e - 1), WeightsAfter(c, e), path(e - 1), path(e));
    }
  }

  lemma FollowsDescent(c: Config, e: nat)
    ensures forall path: nat -> Key -> real, k: Key | Descends(c, path) :: path(e)(k) == WeightsAfter(c, e)(k)
  {
    hide Descends, WeightsAfter;
    forall path: nat -> Key -> real, k: Key | Descends(c, path) ensures path(e)(k) == WeightsAfter(c, e)(k) {
      DescentFollows(c, path, e);
    }
  }

  /** Descent is a path that exists. */
  lemma DescentExists(c: Config) returns (path: nat -> Key -> real)
    ensures Descends(c, path)
  {
    path := (e: nat) => WeightsAfter(c, e);
    DescentExact(c, path);
  }

  ghost predicate Represents(w: Weights, f: Key -> real) {
    forall k: Key :: Get(w, k) == f(k)
  }

  method AddRowGradient(c: Config, weights: Weights, row: Row, gradients: Weights) returns (g: Weights)
    ensures forall k: Key :: Get(g, k) == Get(gradients, k) + RowGradient(c.sigmoid, k => Get(weights, k), row, k)
  {
    ghost var w := (k: Key) => Get(weights, k);
    var logit := ComputeLogit(weights, row);
    var error := c.sigmoid(logit) - row.target;
    assert error == RowError(c.sigmoid, w, row);
    g := AddFeatureShares(gradients, row, error);
    hide FeatureShare;
  }

  method ComputeLogit(weights: Weights, row: Row) returns (logit: real)
    ensures logit == Logit(k => Get(weights, k), row, |row.features|)
  {
    ghost var w := (k: Key) => Get(weights, k);
    hide FeatureKey;
    logit := if BIAS_KEY in weights then weights[BIAS_KEY] else 0.0;
    for n := 0 to |row.features|
      invariant logit == Logit(w, row, n)
    {
      var key := FeatureKey(row.features[n].index);
      logit := logit + Times(if key in weights then weights[key] else 0.0, row.features[n].value);
    }
  }

  method AddFeatureShares(gradients: Weights, row: Row, error: real) returns (g: Weights)
    ensures forall k: Key :: Get(g, k) == Get(gradients, k) + FeatureShare(error, row, |row.features|, k)
  {
    hide FeatureKey;
    g := gradients[BIAS_KEY := Get(gradients, BIAS_KEY) + error];
    for n := 0 to |row.features|
      invariant forall k: Key :: Get(g, k) == Get(gradients, k) + FeatureShare(error, row, n, k)
    {
      var key := FeatureKey(row.features[n].index);
      g := g[key := Get(g, key) + Times(error, row.features[n].value)];
    }
  }

  /** One mini-batch of rows at fixed weights. */
  method BatchGradients(c: Config, weights: Weights, batch: seq<int>) returns (g: Weights)
    requires forall i | i in batch :: 0 <= i < |c.data|
    ensures forall k: Key :: Get(g, k) == SumRows(batch, RowTerm(c, k => Get(weights, k), k))
  {
    ghost var w := (k: Key) => Get(weights, k);
    g := map[];
    for n := 0 to |batch|
      invariant forall k: Key :: Get(g, k) == SumRows(batch[..n], RowTerm(c, w, k))
    {
      assert batch[n] in batch;
      g := AddRowGradient(c, weights, c.data[batch[n]], g);
      assert batch[..n + 1][..n] == batch[..n];
      forall k: Key ensures Get(g, k) == SumRows(batch[..n + 1], RowTerm(c, w, k)) {
        assert RowTerm(c, w, k)(batch[n]) == RowGradient(c.sigmoid, w, c.data[batch[n]], k);
      }
    }
    assert batch[..|batch|] == batch;
  }

  /** accumulated[key] = accumulated.get(key, 0) + value, for every item. */
  function Accumulate(acc: Weights, more: Weights): (r: Weights)
    ensures forall k: Key :: Get(r, k) == Get(acc, k) + Get(more, k)
  {
    map k | k in acc.Keys + more.Keys :: Get(acc, k) + Get(more, k)
  }

  function ScaledUpdates(gradients: Weights, learningRate: real, samples: nat): (r: Weights)
    ensures r.Keys == gradients.Keys
    ensures forall k: Key :: Get(r, k) == Times(ScaleOf(learningRate, samples), Get(gradients, k))
    ensures forall k: Key ::
              Get(r, k) * (if samples == 0 then 1.0 else samples as real) == -(learningRate * Get(gradients, k))
  {
    ScaledByRate(learningRate, samples);
    var scale := ScaleOf(learningRate, samples);
    map k | k in gradients :: Times(scale, gradients[k])
  }

  lemma ScaledByRate(rate: real, samples: nat)
    ensures forall g: real {:trigger Times(ScaleOf(rate, samples), g)} ::
              Times(ScaleOf(rate, samples), g) * (if samples == 0 then 1.0 else samples as real) == -(rate * g)
  {
    forall g: real
      ensures Times(ScaleOf(rate, samples), g) * (if samples == 0 then 1.0 else samples as real) == -(rate * g)
    {
      var n := if samples == 0 then 1.0 else samples as real;
      ScaledDown(rate, n, g, Times(-rate / n, g));
    }
  }

  function Range(a: int, b: int): (r: seq<int>)
    requires a <= b
    ensures |r| == b - a && forall i | 0 <= i < |r| :: r[i] == a + i
  {
    seq(b - a, i => a + i)
  }

  lemma {:induction false} SumRowsRange(n: nat, f: int -> real)
    ensures SumRows(Range(0, n), f) == Sum(n, f)
  {
    if n > 0 {
      SumRowsRange(n - 1, f);
      assert Range(0, n)[..n - 1] == Range(0, n - 1);
    }
  }

  /** The training loop of the baseline computes WeightsAfter for every batch size. */
  method RunBaseline(c: Config) returns (weights: Weights)
    requires c.batchSize > 0
    ensures Represents(weights, WeightsAfter(c, c.epochs))
    ensures forall path: nat -> Key -> real | Descends(c, path) :: Represents(weights, path(c.epochs))
  {
    FollowsDescent(c, c.epochs);
    hide Descends;
    weights := map[];
    for epoch := 0 to c.epochs
      invariant Represents(weights, WeightsAfter(c, epoch))
    {
      var accumulated := EpochGradients(c, weights);
      var updates := ScaledUpdates(accumulated, c.learningRate, |c.data|);
      NextWeights(c, epoch, weights, accumulated, updates);
      weights := Accumulate(weights, updates);
    }
  }

  lemma NextWeights(c: Config, epoch: nat, weights: Weights, accumulated: Weights, updates: Weights)
    requires Represents(weights, WeightsAfter(c, epoch))
    requires forall k: Key :: Get(accumulated, k) == Sum(|c.data|, RowTerm(c, k => Get(weights, k), k))
    requires forall k: Key :: Get(updates, k) == Times(Scale(c), Get(accumulated, k))
    ensures Represents(Accumulate(weights, updates), WeightsAfter(c, epoch + 1))
  {
    var w := (k: Key) => Get(weights, k);
    var v := WeightsAfter(c, epoch);
    hide Sum, RowTerm, Times;
    forall k: Key ensures Get(Accumulate(weights, updates), k) == WeightsAfter(c, epoch + 1)(k) {
      SameTerms(c, w, v, k);
      SumCongruence(|c.data|, RowTerm(c, w, k), RowTerm(c, v, k));
    }
  }

  lemma SameTerms(c: Config, w: Key -> real, v: Key -> real, k: Key)
    requires forall k :: w(k) == v(k)
    ensures forall i :: RowTerm(c, w, k)(i) == RowTerm(c, v, k)(i)
  {
    forall i | 0 <= i < |c.data| ensures RowTerm(c, w, k)(i) == RowTerm(c, v, k)(i) {
      RowGradientLocal(c.sigmoid, w, v, c.data[i], k);
    }
  }

  method EpochGradients(c: Config, weights: Weights) returns (accumulated: Weights)
    requires c.batchSize > 0
    ensures forall k: Key :: Get(accumulated, k) == Sum(|c.data|, RowTerm(c, k => Get(weights, k), k))
  {
    ghost var w := (k: Key) => Get(weights, k);
    accumulated := map[];
    var start := 0;
    while start < |c.data|
      invariant 0 <= start
      invariant forall k: Key :: Get(accumulated, k) == SumRows(Range(0, Min(start, |c.data|)), RowTerm(c, w, k))
      decreases |c.data| - start
    {
      var stop := Min(start + c.batchSize, |c.data|);
      var batch := Range(start, stop);
      var gradients := BatchGradients(c, weights, batch);
      assert Range(0, stop) == Range(0, start) + batch;
      forall k: Key ensures Get(Accumulate(accumulated, gradients), k) == SumRows(Range(0, stop), RowTerm(c, w, k)) {
        SumRowsConcat(Range(0, start), batch, RowTerm(c, w, k));
      }
      accumulated := Accumulate(accumulated, gradients);
      start := start + c.batchSize;
    }
    forall k: Key ensures Get(accumulated, k) == Sum(|c.data|, RowTerm(c, w, k)) {
      SumRowsRange(|c.data|, RowTerm(c, w, k));
    }
  }

}
