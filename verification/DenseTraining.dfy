/**
 What the dense job is meant to compute: the global batches, their split among the workers,
 and the single-process loop that the distributed job must agree with. A model is anything
 whose loss is a mean of per-sample losses: its gradient is a function of parameters and sample.
 */
module DenseTraining {
  import opened Arithmetic
  import opened Batching
  import opened DenseServer
  import opened Sums

  datatype Setup = Setup(
    world: nat, schema: seq<nat>, timeout: Timeout, optimize: Optimizer,
    start: Params, memory: Memory, gradient: (Params, nat) -> Params,
    orders: seq<seq<nat>>, batchSize: nat)

  datatype BatchError = TooFewSamples | SmallFinalBatch

  datatype Plan = Batches(list: seq<seq<nat>>) | Refused(why: BatchError)

  ghost predicate ValidSetup(c: Setup) {
    && 0 < c.world <= c.batchSize
    && Shaped(c.start, c.schema) && KeepsShapes(c.optimize, c.schema)
    && (forall p: Params, x: nat | Shaped(p, c.schema) :: Shaped(c.gradient(p, x), c.schema))
    && AllPlanned(c.orders, c.batchSize, c.world)
  }

  function JobOf(c: Setup): Job {
    Job(Ids(c.world), c.schema, c.timeout, c.optimize)
  }

  function Ids(world: nat): seq<Id> {
    seq(world, i requires 0 <= i < world => i)
  }

  lemma JobIsValid(c: Setup)
    requires ValidSetup(c)
    ensures ValidJob(JobOf(c)) && forall w: Id :: (w in Ids(c.world) <==> w < c.world)
  {
    forall w: nat ensures w in Ids(c.world) <==> w < c.world {
      if w < c.world {
        assert Ids(c.world)[w] == w;
      }
    }
  }

  // ----- batches -----

  function GlobalBatches(order: seq<nat>, size: nat, world: nat): (plan: Plan)
    requires 0 < world <= size
  {
    if |order| < world then Refused(TooFewSamples)
    else
      var list := Chop(order, size);
      if list != [] && |list[|list| - 1]| < world then Refused(SmallFinalBatch)
      else Batches(list)
  }

  /**
   When an epoch can be planned, and what the plan is: every sample of the epoch exactly once,
   in order, in batches that leave no worker without a sample.
   */
  lemma GlobalBatchesExact(order: seq<nat>, size: nat, world: nat)
    requires 0 < world <= size
    ensures var plan := GlobalBatches(order, size, world);
            && (plan.Batches? <==> |order| >= world && (|order| % size == 0 || |order| % size >= world))
            && (plan.Batches? ==>
                  && Concat(plan.list) == order
                  && forall i | 0 <= i < |plan.list| :: world <= |plan.list[i]| <= size)
  {
    hide Chop, Concat;
    ChopCovers(order, size);
    var list := Chop(order, size);
    if |order| >= world {
      ChopSizes(order, size);
      assert 0 <= |order| % size < size;
      if |list[|list| - 1]| >= world {
        forall i | 0 <= i < |list| ensures world <= |list[i]| <= size {
        }
      }
    }
  }

  function Schedule(orders: seq<seq<nat>>, size: nat, world: nat): (batches: seq<seq<nat>>)
    requires 0 < world <= size
  {
    if orders == [] then []
    else Schedule(orders[..|orders| - 1], size, world) + EpochBatches(orders[|orders| - 1], size, world)
  }

  function EpochBatches(order: seq<nat>, size: nat, world: nat): seq<seq<nat>>
    requires 0 < world <= size
  {
    var plan := GlobalBatches(order, size, world);
    if plan.Batches? then plan.list else []
  }

  /** The optimizer steps of some epochs: their lengths over the batch size, each rounded up. */
  function StepsIn(orders: seq<seq<nat>>, size: nat): nat
    requires size > 0
  {
    if orders == [] then 0
    else StepsIn(orders[..|orders| - 1], size) + (|orders[|orders| - 1]| + size - 1) / size
  }

  ghost predicate AllPlanned(orders: seq<seq<nat>>, size: nat, world: nat)
    requires 0 < world <= size
  {
    forall e | 0 <= e < |orders| :: GlobalBatches(orders[e], size, world).Batches?
  }

  /** Batches number from..to are epoch e: all its samples in order, full batches but for the last. */
  ghost predicate EpochIs(batches: seq<seq<nat>>, orders: seq<seq<nat>>, size: nat, world: nat, e: nat)
    requires e < |orders| && size > 0
  {
    var from, to := StepsIn(orders[..e], size), StepsIn(orders[..e + 1], size);
    && from <= to <= |batches| && Concat(batches[from..to]) == orders[e]
    && (forall t | from <= t < to - 1 :: |batches[t]| == size)
    && (forall t | from <= t < to :: world <= |batches[t]| <= size)
  }

  /** The schedule goes through every sample of every epoch in order, and no batch crosses an epoch. */
  lemma {:induction false} ScheduleExact(orders: seq<seq<nat>>, size: nat, world: nat)
    requires 0 < world <= size && AllPlanned(orders, size, world)
    ensures var batches := Schedule(orders, size, world);
      && |batches| == StepsIn(orders, size) && Concat(batches) == Concat(orders)
      && forall e: nat | e < |orders| :: EpochIs(batches, orders, size, world, e)
  {
    if orders == [] {
      assert Schedule(orders, size, world) == [];
    } else {
      var front, last := orders[..|orders| - 1], orders[|orders| - 1];
      var before, list := Schedule(front, size, world), EpochBatches(last, size, world);
      ScheduleGrows(orders, size, world);
      hide *;
      ScheduleExact(front, size, world);
      LastEpoch(last, size, world);
      SameConcat(before, list, orders);
      AllEpochs(before, list, front, orders, size, world);
    }
  }

  lemma SameConcat(before: seq<seq<nat>>, list: seq<seq<nat>>, orders: seq<seq<nat>>)
    requires orders != [] && Concat(before) == Concat(orders[..|orders| - 1]) && Concat(list) == orders[|orders| - 1]
    ensures Concat(before + list) == Concat(orders) && |before + list| == |before| + |list|
  {
    hide *;
    ConcatJoins(before, list);
    ConcatFront(orders);
  }

  lemma AllEpochs(
    before: seq<seq<nat>>, list: seq<seq<nat>>, front: seq<seq<nat>>, orders: seq<seq<nat>>, size: nat, world: nat)
    requires size > 0 && front <= orders && |orders| == |front| + 1
    requires StepsIn(front, size) == |before| && StepsIn(orders, size) == |before| + |list|
    requires Concat(list) == orders[|front|]
    requires forall i | 0 <= i < |list| - 1 :: |list[i]| == size
    requires forall i | 0 <= i < |list| :: world <= |list[i]| <= size
    requires forall e: nat | e < |front| :: EpochIs(before, front, size, world, e)
    ensures forall e: nat | e < |orders| :: EpochIs(before + list, orders, size, world, e)
  {
    hide *;
    NewestEpoch(before, list, front, orders, size, world);
    forall e: nat | e < |orders| ensures EpochIs(before + list, orders, size, world, e) {
      if e < |front| {
        EarlierEpoch(before, list, front, orders, size, world, e);
      }
    }
  }

  lemma ScheduleGrows(orders: seq<seq<nat>>, size: nat, world: nat)
    requires 0 < world <= size && AllPlanned(orders, size, world) && orders != []
    ensures var front, last := orders[..|orders| - 1], orders[|orders| - 1];
      && AllPlanned(front, size, world) && GlobalBatches(last, size, world).Batches?
      && Schedule(orders, size, world) == Schedule(front, size, world) + EpochBatches(last, size, world)
      && StepsIn(orders, size) == StepsIn(front, size) + (|last| + size - 1) / size
      && front <= orders && |front| == |orders| - 1
  {
    hide EpochBatches, GlobalBatches;
    assert forall e | 0 <= e < |orders| - 1 :: orders[..|orders| - 1][e] == orders[e];
  }

  lemma ConcatFront(orders: seq<seq<nat>>)
    requires orders != []
    ensures Concat(orders) == Concat(orders[..|orders| - 1]) + orders[|orders| - 1]
  {
    var front, last := orders[..|orders| - 1], orders[|orders| - 1];
    ConcatJoins(front, [last]);
    assert front + [last] == orders;
    assert Concat([last]) == last + Concat([last][1..]) == last;
  }

  lemma NewestEpoch(
    before: seq<seq<nat>>, list: seq<seq<nat>>, front: seq<seq<nat>>, orders: seq<seq<nat>>, size: nat, world: nat)
    requires size > 0 && front <= orders && |orders| == |front| + 1
    requires StepsIn(front, size) == |before| && StepsIn(orders, size) == |before| + |list|
    requires Concat(list) == orders[|front|]
    requires forall i | 0 <= i < |list| - 1 :: |list[i]| == size
    requires forall i | 0 <= i < |list| :: world <= |list[i]| <= size
    ensures EpochIs(before + list, orders, size, world, |front|)
  {
    var batches := before + list;
    assert orders[..|front|] == front && orders[..|front| + 1] == orders;
    assert batches[|before|..|before| + |list|] == list;
    hide Concat, StepsIn;
    forall t | |before| <= t < |batches| ensures batches[t] == list[t - |before|] {
    }
  }

  lemma LastEpoch(order: seq<nat>, size: nat, world: nat)
    requires 0 < world <= size && GlobalBatches(order, size, world).Batches?
    ensures var list := EpochBatches(order, size, world);
      && |list| == (|order| + size - 1) / size && Concat(list) == order
      && (forall i | 0 <= i < |list| - 1 :: |list[i]| == size)
      && (forall i | 0 <= i < |list| :: world <= |list[i]| <= size)
  {
    GlobalBatchesExact(order, size, world);
    ChopCount(order, size);
    ChopSizes(order, size);
    hide Chop, Concat;
  }

  lemma EarlierEpoch(
    before: seq<seq<nat>>, list: seq<seq<nat>>, front: seq<seq<nat>>, orders: seq<seq<nat>>, size: nat, world: nat, e: nat)
    requires e < |front| && size > 0 && front <= orders && EpochIs(before, front, size, world, e)
    ensures EpochIs(before + list, orders, size, world, e)
  {
    var from, to := StepsIn(front[..e], size), StepsIn(front[..e + 1], size);
    assert front[..e] == orders[..e] && front[..e + 1] == orders[..e + 1];
    assert (before + list)[from..to] == before[from..to];
    hide StepsIn, Concat;
  }

  /** Planning for one process gives the same batches. */
  lemma {:induction false} ScheduleIgnoresWorld(orders: seq<seq<nat>>, size: nat, world: nat)
    requires 0 < world <= size && AllPlanned(orders, size, world)
    ensures AllPlanned(orders, size, 1) && Schedule(orders, size, 1) == Schedule(orders, size, world)
  {
    forall e | 0 <= e < |orders|
      ensures GlobalBatches(orders[e], size, 1).Batches?
      ensures EpochBatches(orders[e], size, 1) == EpochBatches(orders[e], size, world)
    {
      GlobalBatchesExact(orders[e], size, 1);
      GlobalBatchesExact(orders[e], size, world);
    }
    if orders != [] {
      ScheduleGrows(orders, size, world);
      ScheduleGrows(orders, size, 1);
      hide *;
      ScheduleIgnoresWorld(orders[..|orders| - 1], size, world);
    }
  }

  lemma {:induction false} ScheduledBatchesAreLarge(orders: seq<seq<nat>>, size: nat, world: nat)
    requires 0 < world <= size
    ensures forall t | 0 <= t < |Schedule(orders, size, world)| :: |Schedule(orders, size, world)[t]| >= world
  {
    if orders != [] {
      ScheduledBatchesAreLarge(orders[..|orders| - 1], size, world);
      GlobalBatchesExact(orders[|orders| - 1], size, world);
    }
  }

  function Total(c: Setup): nat
    requires 0 < c.world <= c.batchSize
  {
    |Schedule(c.orders, c.batchSize, c.world)|
  }

  function BatchAt(c: Setup, t: nat): seq<nat>
    requires 0 < c.world <= c.batchSize
  {
    if t < Total(c) then Schedule(c.orders, c.batchSize, c.world)[t] else []
  }

  // ----- splitting a batch among the workers -----

  /** Where part w starts: the first n % world parts hold one sample more than the rest. */
  function Start(n: nat, world: nat, w: nat): nat
    requires world > 0
  {
    w * (n / world) + Min(w, n % world)
  }

  lemma StartEnds(n: nat, world: nat)
    requires world > 0
    ensures Start(n, world, 0) == 0 && Start(n, world, world) == n
  {
  }

  /** Part w holds n / world samples, and one more when it is among the first n % world. */
  lemma StartSteps(n: nat, world: nat, w: nat)
    requires w < world
    ensures Start(n, world, w + 1) == Start(n, world, w) + n / world + if w < n % world then 1 else 0
    ensures n >= world ==> n / world >= 1
  {
    assert (w + 1) * (n / world) == w * (n / world) + n / world;
  }

  lemma {:induction false} StartBounded(n: nat, world: nat, w: nat)
    requires w <= world && world > 0
    ensures Start(n, world, w) <= n
    decreases world - w
  {
    hide Start;
    if w < world {
      StartSteps(n, world, w);
      StartBounded(n, world, w + 1);
    } else {
      StartEnds(n, world);
    }
  }

  lemma StartGrows(n: nat, world: nat, w: nat)
    requires w < world
    ensures Start(n, world, w) <= Start(n, world, w + 1) <= n
    ensures n >= world ==> Start(n, world, w) < Start(n, world, w + 1)
  {
    hide Start;
    StartSteps(n, world, w);
    StartBounded(n, world, w + 1);
  }

  function Part(batch: seq<nat>, world: nat, w: nat): (part: seq<nat>)
    requires w < world
    ensures |batch| >= world ==> |part| > 0
  {
    StartGrows(|batch|, world, w);
    batch[Start(|batch|, world, w)..Start(|batch|, world, w + 1)]
  }

  // ----- means of per-sample gradients -----

  function SampleTerm(c: Setup, p: Params, xs: seq<nat>, i: int, j: int): int -> real {
    k => if 0 <= k < |xs| then At(c.gradient(p, xs[k]), i, j) else 0.0
  }

  function MeanOf(c: Setup, p: Params, xs: seq<nat>, i: int, j: int): real {
    if xs == [] then 0.0 else Sum(|xs|, SampleTerm(c, p, xs, i, j)) / |xs| as real
  }

  function Mean(c: Setup, p: Params, xs: seq<nat>): Params {
    seq(|c.schema|, i requires 0 <= i < |c.schema| => seq(c.schema[i], j => MeanOf(c, p, xs, i, j)))
  }

  function Local(c: Setup, p: Params, batch: seq<nat>, w: nat): Submission
    requires w < c.world
  {
    Submission(|Part(batch, c.world, w)|, Mean(c, p, Part(batch, c.world, w)))
  }

  ghost predicate AllSubmitted(c: Setup, p: Params, batch: seq<nat>, pending: map<Id, Submission>) {
    forall w: nat | w < c.world :: w in pending && pending[w] == Local(c, p, batch, w)
  }

  lemma {:induction false} SamplesAreStarts(c: Setup, p: Params, batch: seq<nat>, pending: map<Id, Submission>, n: nat)
    requires n <= c.world && c.world > 0 && AllSubmitted(c, p, batch, pending)
    ensures Samples(Ids(c.world)[..n], pending) == Start(|batch|, c.world, n)
  {
    hide Start, Mean;
    var ws := Ids(c.world)[..n];
    if n == 0 {
      StartEnds(|batch|, c.world);
    } else {
      StartGrows(|batch|, c.world, n - 1);
      SamplesAreStarts(c, p, batch, pending, n - 1);
      assert ws[..n - 1] == Ids(c.world)[..n - 1] && ws[n - 1] == n - 1;
    }
  }

  /** The first n contributions add up to the samples of the first n parts, over the batch size. */
  lemma {:induction false} ContributionsAddUp(
    c: Setup, p: Params, batch: seq<nat>, pending: map<Id, Submission>, i: nat, j: nat, n: nat)
    requires n <= c.world && c.world > 0 && |batch| >= c.world && AllSubmitted(c, p, batch, pending)
    requires i < |c.schema| && j < c.schema[i]
    ensures Sum(n, Contribution(Ids(c.world), pending, i, j)) * |batch| as real
            == Sum(Start(|batch|, c.world, n), SampleTerm(c, p, batch, i, j))
  {
    hide *;
    var f := Contribution(Ids(c.world), pending, i, j);
    var size := |batch| as real;
    SumUnfolds(n, f);
    if n == 0 {
      StartEnds(|batch|, c.world);
      SumUnfolds(0, SampleTerm(c, p, batch, i, j));
    } else {
      ContributionsAddUp(c, p, batch, pending, i, j, n - 1);
      PartAddsUp(c, p, batch, i, j, n - 1);
      OneContribution(c, p, batch, pending, i, j, n - 1);
      assert (Sum(n - 1, f) + f(n - 1)) * size == Sum(n - 1, f) * size + f(n - 1) * size;
    }
  }

  lemma PartAddsUp(c: Setup, p: Params, batch: seq<nat>, i: nat, j: nat, w: nat)
    requires w < c.world
    ensures var part := Part(batch, c.world, w);
            Sum(Start(|batch|, c.world, w + 1), SampleTerm(c, p, batch, i, j))
            == Sum(Start(|batch|, c.world, w), SampleTerm(c, p, batch, i, j))
               + Sum(|part|, SampleTerm(c, p, part, i, j))
  {
    hide Start, Sum;
    var part := Part(batch, c.world, w);
    var from := Start(|batch|, c.world, w);
    StartGrows(|batch|, c.world, w);
    var whole := SampleTerm(c, p, batch, i, j);
    var tail := (k: int) => whole(from + k);
    SumSplit(from, |part|, whole, tail);
    SumCongruence(|part|, tail, SampleTerm(c, p, part, i, j));
  }

  lemma OneContribution(
    c: Setup, p: Params, batch: seq<nat>, pending: map<Id, Submission>, i: nat, j: nat, w: nat)
    requires w < c.world && |batch| >= c.world && AllSubmitted(c, p, batch, pending)
    requires i < |c.schema| && j < c.schema[i]
    ensures var part := Part(batch, c.world, w);
            Contribution(Ids(c.world), pending, i, j)(w) * |batch| as real
            == Sum(|part|, SampleTerm(c, p, part, i, j))
  {
    hide Start, Sum, Part, Samples;
    var part := Part(batch, c.world, w);
    SamplesAreStarts(c, p, batch, pending, c.world);
    StartEnds(|batch|, c.world);
    assert Ids(c.world)[..c.world] == Ids(c.world);
    var sum := Sum(|part|, SampleTerm(c, p, part, i, j));
    assert At(pending[w].gradients, i, j) == MeanOf(c, p, part, i, j);
    CancelRatio(sum, |part|, |batch|);
  }

  lemma CancelRatio(sum: real, part: nat, total: nat)
    requires part > 0 && total > 0
    ensures (sum / part as real) * (part as real / total as real) * total as real == sum
  {
    var a, b := part as real, total as real;
    assert (sum / a) * a == sum;
    assert (a / b) * b == a;
    assert (sum / a) * (a / b) * b == (sum / a) * ((a / b) * b);
  }

  /** The sample-weighted average of the local means is the mean over the whole global batch. */
  lemma AverageIsGlobalMean(c: Setup, p: Params, batch: seq<nat>, pending: map<Id, Submission>)
    requires c.world > 0 && |batch| >= c.world && AllSubmitted(c, p, batch, pending)
    ensures Average(JobOf(c), pending) == Mean(c, p, batch)
  {
    hide Start, Sum, Part, Samples, Contribution, SampleTerm, AllSubmitted;
    forall i: nat, j: nat | i < |c.schema| && j < c.schema[i]
      ensures Sum(|Ids(c.world)|, Contribution(Ids(c.world), pending, i, j)) == MeanOf(c, p, batch, i, j)
    {
      ContributionsAddUp(c, p, batch, pending, i, j, c.world);
      StartEnds(|batch|, c.world);
    }
    forall i: nat | i < |c.schema| ensures Average(JobOf(c), pending)[i] == Mean(c, p, batch)[i] {
      assert |Average(JobOf(c), pending)[i]| == |Mean(c, p, batch)[i]|;
    }
  }

  // ----- the single process -----

  datatype Model = Model(params: Params, memory: Memory)

  function Optimized(c: Setup, m: Model, batch: seq<nat>): Model {
    var (params, memory) := c.optimize(m.params, m.memory, Mean(c, m.params, batch));
    Model(params, memory)
  }

  /** The model after t optimizer steps of one process on whole global batches. */
  function Trained(c: Setup, t: nat): Model
    requires 0 < c.world <= c.batchSize
  {
    if t == 0 then Model(c.start, c.memory) else Optimized(c, Trained(c, t - 1), BatchAt(c, t - 1))
  }

  lemma {:induction false} TrainedIsShaped(c: Setup, t: nat)
    requires ValidSetup(c)
    ensures Shaped(Trained(c, t).params, c.schema)
  {
    if t > 0 {
      TrainedIsShaped(c, t - 1);
      assert Shaped(Mean(c, Trained(c, t - 1).params, BatchAt(c, t - 1)), c.schema);
    }
  }

  // ----- the same training, said without the functions that compute it -----

  function GradientAt(c: Setup, p: Params, xs: seq<nat>, i: nat, j: nat): int -> real {
    k =>
      if 0 <= k < |xs| && i < |c.gradient(p, xs[k])| && j < |c.gradient(p, xs[k])[i]|
      then c.gradient(p, xs[k])[i][j] else 0.0
  }

  /** The number of samples times each coordinate is the sum of the samples' gradients there. */
  ghost predicate IsMeanGradient(c: Setup, p: Params, xs: seq<nat>, g: Params) {
    && Shaped(g, c.schema)
    && forall i: nat, j: nat | i < |c.schema| && j < c.schema[i] ::
         Times(g[i][j], |xs| as real) == Sum(|xs|, GradientAt(c, p, xs, i, j))
  }

  /** One optimizer step on a batch's mean gradient. */
  ghost predicate StepsOn(c: Setup, m: Model, xs: seq<nat>, after: Model) {
    exists g: Params :: IsMeanGradient(c, m.params, xs, g) && (after.params, after.memory) == c.optimize(m.params, m.memory, g)
  }

  /** One optimizer step for each batch of the schedule, from the initial model. */
  ghost predicate Trains(c: Setup, path: nat -> Model)
    requires 0 < c.world <= c.batchSize
  {
    var batches := Schedule(c.orders, c.batchSize, c.world);
    path(0) == Model(c.start, c.memory) && forall t: nat | t < |batches| :: StepsOn(c, path(t), batches[t], path(t + 1))
  }

  lemma DivideOnce(g: real, n: real, sum: real)
    requires n > 0.0
    ensures Times(g, n) == sum <==> g == sum / n
  {
  }

  lemma MeanIsMean(c: Setup, p: Params, xs: seq<nat>)
    requires xs != []
    ensures IsMeanGradient(c, p, xs, Mean(c, p, xs))
    ensures forall g | IsMeanGradient(c, p, xs, g) :: g == Mean(c, p, xs)
  {
    var mean := Mean(c, p, xs);
    hide Sum, Times;
    forall i: nat, j: nat | i < |c.schema| && j < c.schema[i]
      ensures Sum(|xs|, GradientAt(c, p, xs, i, j)) == Sum(|xs|, SampleTerm(c, p, xs, i, j))
    {
      SameGradients(c, p, xs, i, j);
      SumCongruence(|xs|, GradientAt(c, p, xs, i, j), SampleTerm(c, p, xs, i, j));
    }
    hide GradientAt, SampleTerm;
    forall g, i: nat, j: nat | Shaped(g, c.schema) && i < |c.schema| && j < c.schema[i]
      ensures Times(g[i][j], |xs| as real) == Sum(|xs|, GradientAt(c, p, xs, i, j)) <==> g[i][j] == mean[i][j]
    {
      DivideOnce(g[i][j], |xs| as real, Sum(|xs|, GradientAt(c, p, xs, i, j)));
    }
    forall g | IsMeanGradient(c, p, xs, g) ensures g == mean {
      SameEverywhere(c.schema, g, mean);
    }
  }

  lemma SameGradients(c: Setup, p: Params, xs: seq<nat>, i: nat, j: nat)
    ensures forall k: int | 0 <= k < |xs| :: GradientAt(c, p, xs, i, j)(k) == SampleTerm(c, p, xs, i, j)(k)
  {
    forall k: int | 0 <= k < |xs| ensures GradientAt(c, p, xs, i, j)(k) == SampleTerm(c, p, xs, i, j)(k) {
      var g := c.gradient(p, xs[k]);
      assert At(g, i, j) == if i < |g| && j < |g[i]| then g[i][j] else 0.0;
    }
  }

  lemma SameEverywhere(schema: seq<nat>, a: Params, b: Params)
    requires Shaped(a, schema) && Shaped(b, schema)
    requires forall i: nat, j: nat | i < |schema| && j < schema[i] :: a[i][j] == b[i][j]
    ensures a == b
  {
    forall i | 0 <= i < |schema| ensures a[i] == b[i] {
      assert |a[i]| == |b[i]| == schema[i];
    }
  }

  lemma StepIsOptimized(c: Setup, m: Model, xs: seq<nat>, after: Model)
    requires xs != []
    ensures StepsOn(c, m, xs, after) <==> after == Optimized(c, m, xs)
  {
    MeanIsMean(c, m.params, xs);
    hide Mean, IsMeanGradient;
  }

  /** Training by the schedule is what Trained computes, and nothing else is. */
  lemma TrainingExact(c: Setup, path: nat -> Model)
    requires ValidSetup(c)
    ensures Trains(c, path) <==> forall t: nat | t <= Total(c) :: path(t) == Trained(c, t)
  {
    var batches := Schedule(c.orders, c.batchSize, c.world);
    ScheduledBatchesAreLarge(c.orders, c.batchSize, c.world);
    hide Schedule, StepsOn, Optimized, ValidSetup;
    forall t: nat | t < |batches|
      ensures forall m: Model, after: Model :: StepsOn(c, m, batches[t], after) <==> after == Optimized(c, m, batches[t])
      ensures Trained(c, t + 1) == Optimized(c, Trained(c, t), batches[t])
    {
      forall m: Model, after: Model ensures StepsOn(c, m, batches[t], after) <==> after == Optimized(c, m, batches[t]) {
        StepIsOptimized(c, m, batches[t], after);
      }
    }
    if Trains(c, path) {
      forall t: nat | t <= Total(c) ensures path(t) == Trained(c, t) {
        PathFollows(c, path, t);
      }
    }
  }

  lemma {:induction false} PathFollows(c: Setup, path: nat -> Model, t: nat)
    requires 0 < c.world <= c.batchSize && Trains(c, path) && t <= Total(c)
    requires forall b: seq<nat> | b in Schedule(c.orders, c.batchSize, c.world) :: b != []
    ensures path(t) == Trained(c, t)
  {
    hide Schedule, StepsOn, Optimized;
    if t > 0 {
      PathFollows(c, path, t - 1);
      var batch := Schedule(c.orders, c.batchSize, c.world)[t - 1];
      assert batch in Schedule(c.orders, c.batchSize, c.world);
      assert StepsOn(c, path(t - 1), batch, path(t - 1 + 1));
      StepIsOptimized(c, path(t - 1), batch, path(t));
    }
  }

  /** What the models of any such training are. */
  lemma FollowsTraining(c: Setup, t: nat)
    requires ValidSetup(c) && t <= Total(c)
    ensures forall path: nat -> Model | Trains(c, path) :: path(t) == Trained(c, t)
  {
    hide Trains, Trained, Schedule, AllPlanned, KeepsShapes;
    forall path: nat -> Model | Trains(c, path) ensures path(t) == Trained(c, t) {
      AlongPath(c, path, t);
    }
  }

  lemma AlongPath(c: Setup, path: nat -> Model, t: nat)
    requires ValidSetup(c) && Trains(c, path) && t <= Total(c)
    ensures path(t) == Trained(c, t)
  {
    ScheduledBatchesAreLarge(c.orders, c.batchSize, c.world);
    hide Trains, Trained, Schedule;
    PathFollows(c, path, t);
  }

  function StepsBefore(c: Setup, epoch: nat): nat
    requires 0 < c.world <= c.batchSize && epoch <= |c.orders|
  {
    |Schedule(c.orders[..epoch], c.batchSize, c.world)|
  }

  method RunBatches(c: Setup, batches: seq<seq<nat>>, model: Model, steps: nat) returns (after: Model, taken: nat)
    requires 0 < c.world <= c.batchSize && model == Trained(c, steps)
    requires forall b: nat | b < |batches| :: BatchAt(c, steps + b) == batches[b]
    ensures taken == steps + |batches| && after == Trained(c, taken)
  {
    hide Schedule, BatchAt, Optimized;
    after, taken := model, steps;
    for b := 0 to |batches|
      invariant taken == steps + b && after == Trained(c, taken)
    {
      after := Optimized(c, after, batches[b]);
      taken := taken + 1;
    }
  }

  method RunEpoch(c: Setup, epoch: nat, model: Model, steps: nat) returns (after: Model, taken: nat)
    requires 0 < c.world <= c.batchSize && epoch < |c.orders|
    requires steps == StepsBefore(c, epoch) && model == Trained(c, steps)
    ensures taken == StepsBefore(c, epoch + 1) && after == Trained(c, taken)
  {
    hide Schedule, BatchAt, StepsBefore, Trained;
    var batches := EpochBatches(c.orders[epoch], c.batchSize, c.world);
    EpochSits(c, epoch);
    hide *;
    after, taken := RunBatches(c, batches, model, steps);
  }

  /** The loop has trained the first epochs, all of which could be planned, batch after batch. */
  ghost predicate TrainedTo(c: Setup, epochs: nat, model: Model, steps: nat)
    requires 0 < c.world <= c.batchSize && epochs <= |c.orders|
  {
    && AllPlanned(c.orders[..epochs], c.batchSize, c.world)
    && steps == StepsIn(c.orders[..epochs], c.batchSize) && model == Trained(c, steps)
  }

  /** An epoch that cannot be planned raises, with the epochs before it trained. */
  method RunSingleProcess(c: Setup) returns (model: Model, steps: nat, refused: bool)
    requires 0 < c.world <= c.batchSize
    ensures !refused <==> AllPlanned(c.orders, c.batchSize, c.world)
    ensures !refused ==> steps == StepsIn(c.orders, c.batchSize) == Total(c) && model == Trained(c, steps)
    ensures ValidSetup(c) ==> !refused && forall path: nat -> Model | Trains(c, path) :: model == path(steps)
    ensures refused ==> exists e: nat ::
      e < |c.orders| && GlobalBatches(c.orders[e], c.batchSize, c.world).Refused? && TrainedTo(c, e, model, steps)
  {
    NothingPlanned(c);
    model, steps := Model(c.start, c.memory), 0;
    var epoch := 0;
    while epoch < |c.orders|
      invariant 0 <= epoch <= |c.orders| && TrainedTo(c, epoch, model, steps)
    {
      hide *;
      if GlobalBatches(c.orders[epoch], c.batchSize, c.world).Refused? {
        OneRefused(c, epoch);
        return model, steps, true;
      }
      StepsBeforeIs(c, epoch, model, steps);
      model, steps := RunEpoch(c, epoch, model, steps);
      EpochTrained(c, epoch, model, steps);
      epoch := epoch + 1;
    }
    assert c.orders[..epoch] == c.orders;
    ScheduleExact(c.orders, c.batchSize, c.world);
    if ValidSetup(c) {
      FollowsTraining(c, steps);
    }
    refused := false;
  }

  lemma NothingPlanned(c: Setup)
    requires 0 < c.world <= c.batchSize
    ensures TrainedTo(c, 0, Model(c.start, c.memory), 0)
  {
    assert c.orders[..0] == [];
  }

  lemma OneRefused(c: Setup, epoch: nat)
    requires 0 < c.world <= c.batchSize && epoch < |c.orders|
    requires GlobalBatches(c.orders[epoch], c.batchSize, c.world).Refused?
    ensures !AllPlanned(c.orders, c.batchSize, c.world)
  {
    hide GlobalBatches;
  }

  lemma StepsBeforeIs(c: Setup, epoch: nat, model: Model, steps: nat)
    requires 0 < c.world <= c.batchSize && epoch <= |c.orders| && TrainedTo(c, epoch, model, steps)
    ensures steps == StepsBefore(c, epoch) && model == Trained(c, steps)
  {
    hide AllPlanned, Trained;
    ScheduleExact(c.orders[..epoch], c.batchSize, c.world);
  }

  lemma EpochTrained(c: Setup, epoch: nat, model: Model, steps: nat)
    requires 0 < c.world <= c.batchSize && epoch < |c.orders|
    requires AllPlanned(c.orders[..epoch], c.batchSize, c.world)
    requires GlobalBatches(c.orders[epoch], c.batchSize, c.world).Batches?
    requires steps == StepsBefore(c, epoch + 1) && model == Trained(c, steps)
    ensures TrainedTo(c, epoch + 1, model, steps)
  {
    hide GlobalBatches, Trained;
    var done, all := c.orders[..epoch], c.orders[..epoch + 1];
    forall e | 0 <= e < |all| ensures GlobalBatches(all[e], c.batchSize, c.world).Batches? {
      assert e < epoch ==> done[e] == all[e];
    }
    ScheduleExact(c.orders[..epoch + 1], c.batchSize, c.world);
  }

  lemma EpochSits(c: Setup, epoch: nat)
    requires 0 < c.world <= c.batchSize && epoch < |c.orders|
    ensures var batches := EpochBatches(c.orders[epoch], c.batchSize, c.world);
            && StepsBefore(c, epoch + 1) == StepsBefore(c, epoch) + |batches|
            && forall b: nat | b < |batches| :: BatchAt(c, StepsBefore(c, epoch) + b) == batches[b]
  {
    hide EpochBatches;
    assert c.orders[..epoch + 1][..epoch] == c.orders[..epoch];
    SchedulePrefix(c, epoch + 1);
  }

  lemma {:induction false} SchedulePrefix(c: Setup, epochs: nat)
    requires 0 < c.world <= c.batchSize && epochs <= |c.orders|
    ensures Schedule(c.orders[..epochs], c.batchSize, c.world) <= Schedule(c.orders, c.batchSize, c.world)
    decreases |c.orders| - epochs
  {
    if epochs == |c.orders| {
      assert c.orders[..epochs] == c.orders;
    } else {
      SchedulePrefix(c, epochs + 1);
      assert c.orders[..epochs + 1][..epochs] == c.orders[..epochs];
    }
  }
}
