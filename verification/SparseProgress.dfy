/**
 Runs of the sparse trainer move and end: no request of a worker ever fails, every worker that
 has not finished has its next step, and only a bounded number of steps change anything.
 */
module SparseProgress {
  import opened Arithmetic
  import opened SparseProtocol
  import opened SparseShard
  import opened SparseLr
  import opened SparseCluster

  /** No push is refused and no barrier fails, of any worker in any state of any run. */
  lemma RequestsNeverFail(c: Setup, run: seq<Cluster>, n: nat, w: nat)
    requires ValidSetup(c) && Behaviour(c, run) && n < |run| && w < c.workers
    ensures |run[n].trainers| == c.workers && |run[n].shards| == c.shards
    ensures AtShard(c, run[n], w) ==> !AnswerTo(c, run[n], w).Failed?
  {
    BehaviourInv(c, run, n);
    if AtShard(c, run[n], w) {
      NoRequestFails(c, run[n], w);
    }
  }

  lemma NoRequestFails(c: Setup, a: Cluster, w: nat)
    requires ValidSetup(c) && ClusterInv(c, a) && w < c.workers && AtShard(c, a, w)
    ensures !AnswerTo(c, a, w).Failed?
  {
    if a.trainers[w].phase.waiting {
      var p := a.trainers[w].phase.target;
      assert ShardInv(c, p, a.shards[p], a.trainers);
      WakeAtShard(c, p, a.shards[p], a.trainers, w);
    } else {
      PushAnswers(c, a, w);
    }
  }

  // ----- the results of a step exist -----

  function RowKeys(row: Row): (keys: set<Key>)
    ensures forall k :: k in keys <==> Reads(row, k)
  {
    var keys := {BIAS_KEY} + set i | 0 <= i < |row.features| :: FeatureKey(row.features[i].index);
    keys
  }

  function BatchKeys(c: Setup, batch: seq<int>): (keys: set<Key>)
    ensures forall k :: k in keys <==> BatchReads(c, batch, k)
  {
    if batch == [] then {BIAS_KEY}
    else
      var rest := BatchKeys(c, batch[1..]);
      var i := batch[0];
      BatchReadsMore(c, batch);
      if 0 <= i < |c.lr.data| then rest + RowKeys(c.lr.data[i]) else rest
  }

  lemma BatchReadsMore(c: Setup, batch: seq<int>)
    requires batch != []
    ensures forall k :: BatchReads(c, batch, k) <==>
              BatchReads(c, batch[1..], k) || (0 <= batch[0] < |c.lr.data| && Reads(c.lr.data[batch[0]], k))
  {
    assert forall i :: i in batch <==> i == batch[0] || i in batch[1..];
  }

  lemma {:induction false} NoShare(error: real, row: Row, n: nat, k: Key)
    requires n <= |row.features| && !Reads(row, k)
    ensures FeatureShare(error, row, n, k) == 0.0
  {
    if n > 0 {
      NoShare(error, row, n - 1, k);
    }
  }

  lemma {:induction false} UnreadKey(c: Setup, batch: seq<int>, w: Key -> real, k: Key)
    requires !BatchReads(c, batch, k)
    ensures SumRows(batch, RowTerm(c.lr, w, k)) == 0.0
  {
    if batch != [] {
      var last := |batch| - 1;
      assert forall i | i in batch[..last] :: i in batch;
      UnreadKey(c, batch[..last], w, k);
      var i := batch[last];
      if 0 <= i < |c.lr.data| {
        NoShare(RowError(c.lr.sigmoid, w, c.lr.data[i]), c.lr.data[i], |c.lr.data[i].features|, k);
      }
    }
  }

  lemma {:induction false} Listing(m: Weights) returns (es: seq<Entry>)
    ensures Lists(es, m)
    decreases |m|
  {
    if m.Keys == {} {
      es := [];
    } else {
      var k := AnyOf(m.Keys);
      var rest := m - {k};
      assert rest.Keys == m.Keys - {k};
      var front := Listing(rest);
      es := front + [Entry(k, [m[k]], Add)];
      forall x | x in m ensures HasKey(es, x) {
        if x == k {
          assert es[|front|].key == k;
        } else {
          assert x in rest && HasKey(front, x);
          var i :| 0 <= i < |front| && front[i].key == x;
          assert es[i].key == x;
        }
      }
    }
  }

  lemma PullExists(c: Setup, a: Cluster, w: nat) returns (b: Cluster)
    requires ValidSetup(c) && |a.shards| == c.shards && w < |a.trainers|
    requires var t := a.trainers[w];
             t.phase.Pulling? && t.phase.start < |Rows(c, w)| && t.phase.shard < c.shards
    ensures PullStep(c, a, b, w)
  {
    var t := a.trainers[w];
    var s := t.phase.shard;
    var read := set k | k in BatchKeys(c, Batch(c, w, t.phase.start)) && c.shardOf(k) == s;
    var seen := map k | k in t.phase.seen.Keys + read ::
      if k in read then Scalar(PullOne(a.shards[s], k).0) else t.phase.seen[k];
    assert PulledFrom(c, a.shards[s], s, Batch(c, w, t.phase.start), t.phase.seen, seen);
    b := Cluster(a.shards, a.trainers[w := t.(phase := t.phase.(shard := s + 1, seen := seen))]);
  }

  lemma ComputeExists(c: Setup, a: Cluster, w: nat) returns (b: Cluster)
    requires ValidSetup(c) && w < |a.trainers|
    requires var t := a.trainers[w];
             t.phase.Pulling? && t.phase.start < |Rows(c, w)| && t.phase.shard == c.shards
    ensures ComputeStep(c, a, b, w)
  {
    var t := a.trainers[w];
    var acc := Gathered(c, Batch(c, w, t.phase.start), t.phase.seen, t.phase.acc);
    hide RowTerm, SumRows, BatchReads;
    b := a.(trainers := a.trainers[w := t.(phase := Pulling(t.phase.start + c.lr.batchSize, 0, map[], acc))]);
  }

  lemma Gathered(c: Setup, batch: seq<int>, seen: Weights, before: Weights) returns (after: Weights)
    ensures Gathers(c, batch, seen, before, after)
  {
    var at := (k: Key) => Get(seen, k);
    var keys := before.Keys + BatchKeys(c, batch);
    after := map k | k in keys :: Get(before, k) + SumRows(batch, RowTerm(c.lr, at, k));
    hide RowTerm, SumRows;
    forall k: Key ensures Get(after, k) == Get(before, k) + SumRows(batch, RowTerm(c.lr, at, k)) {
      if k !in keys {
        UnreadKey(c, batch, at, k);
      }
    }
  }

  lemma PackExists(c: Setup, a: Cluster, w: nat) returns (b: Cluster)
    requires ValidSetup(c) && w < |a.trainers|
    requires a.trainers[w].phase.Pulling? && a.trainers[w].phase.start >= |Rows(c, w)|
    ensures PackStep(c, a, b, w)
  {
    var t := a.trainers[w];
    var updates := Listing(ScaledUpdates(t.phase.acc, c.lr.learningRate, |c.lr.data|));
    hide Lists;
    b := a.(trainers := a.trainers[w := t.(phase := Pushing(0, updates, false))]);
  }

  lemma RequestExists(c: Setup, a: Cluster, w: nat) returns (b: Cluster)
    requires ValidSetup(c) && ClusterInv(c, a) && w < c.workers && AtShard(c, a, w)
    ensures PushStep(c, a, b, w) || WakeStep(c, a, b, w)
    ensures AnswerTo(c, a, w) != Waiting || !a.trainers[w].phase.waiting ==> b.trainers[w] != a.trainers[w]
  {
    NoRequestFails(c, a, w);
    hide Push, Pass, GroupFor, ShardInv, TrainerInv;
    var t := a.trainers[w];
    var p := t.phase.target;
    var (sh, reply) :=
      if t.phase.waiting then Pass(a.shards[p], IdOf(w), t.epoch, false)
      else Push(a.shards[p], IdOf(w), t.epoch, GroupFor(c, t.phase.updates, p), false);
    b := Cluster(a.shards[p := sh], a.trainers[w := Answered(t, reply)]);
  }

  /** A worker that has not finished always has its next step. */
  lemma StepExists(c: Setup, a: Cluster, w: nat) returns (b: Cluster)
    requires ValidSetup(c) && ClusterInv(c, a) && w < c.workers && !a.trainers[w].phase.Finished?
    ensures StepOf(c, a, b, w)
    ensures Moves(c, a, w) ==> b.trainers[w] != a.trainers[w]
  {
    var t := a.trainers[w];
    assert TrainerInv(c, w, t);
    hide ShardInv, PulledFrom, Gathers, Lists, TrainerInv;
    if t.phase.Pushing? {
      if t.phase.target < c.shards {
        b := RequestExists(c, a, w);
      } else {
        b := a.(trainers := a.trainers[w := Trainer(t.epoch + 1, BeginEpoch(c, t.epoch + 1))]);
      }
    } else if t.phase.start >= |Rows(c, w)| {
      b := PackExists(c, a, w);
    } else if t.phase.shard < c.shards {
      b := PullExists(c, a, w);
    } else {
      b := ComputeExists(c, a, w);
    }
  }

  // ----- a measure -----

  /** Steps of one epoch with so many local rows and shards: per row at most one pull per shard and one computation. */
  function EpochCost(rows: nat, shards: nat): nat {
    2 + 2 * shards + RowsCost(rows, shards)
  }

  function RowsCost(rows: int, shards: nat): int {
    if rows > 0 then rows * (shards + 1) else 0
  }

  lemma RowsCostGrows(rows: int, more: int, shards: nat)
    requires rows < more && more > 0
    ensures 0 <= RowsCost(rows, shards) <= RowsCost(more, shards) - (shards + 1)
  {
    ProductGrows(0, more - 1, shards + 1);
    Distribute(more, 1, shards + 1);
    if rows > 0 {
      ProductGrows(0, rows, shards + 1);
      ProductGrows(rows, more - 1, shards + 1);
    }
  }

  function PhaseLeft(rows: nat, shards: nat, p: Phase): int {
    match p
    case Finished => 0
    case Pushing(target, _, waiting) => 1 + 2 * (shards - target) - if waiting then 1 else 0
    case Pulling(start, shard, _, _) =>
      2 + 2 * shards + RowsCost(rows - start, shards) - if start < rows then shard else 0
  }

  function Epochs(left: int, cost: nat): int { left * cost }

  lemma OneEpochLess(left: int, cost: nat)
    ensures Epochs(left + 1, cost) == Epochs(left, cost) + cost && (left >= 0 ==> Epochs(left, cost) >= 0)
    ensures Epochs(0, cost) == 0
  {
  }

  /** The steps a worker has left, vain wake-ups aside. */
  function Left(c: Setup, w: nat, t: Trainer): int
    requires c.workers > 0
  {
    var rows := |Rows(c, w)|;
    if t.phase.Finished? then 0
    else Epochs(c.lr.epochs - t.epoch - 1, EpochCost(rows, c.shards)) + PhaseLeft(rows, c.shards, t.phase)
  }

  lemma LeftIsNatural(c: Setup, w: nat, t: Trainer)
    requires ValidSetup(c) && TrainerInv(c, w, t)
    ensures Left(c, w, t) >= 0
  {
    hide Rows;
    var rows := |Rows(c, w)|;
    OneEpochLess(c.lr.epochs - t.epoch - 1, EpochCost(rows, c.shards));
    if t.phase.Pulling? {
      RowsCostGrows(-1, 1, c.shards);
      if t.phase.start < rows {
        RowsCostGrows(0, rows - t.phase.start, c.shards);
      }
    }
    hide RowsCost, Epochs;
  }

  lemma PullShrinks(c: Setup, w: nat, t: Trainer, u: Trainer)
    requires ValidSetup(c) && t.phase.Pulling? && u.phase.Pulling? && u.epoch == t.epoch
    requires t.phase.start < |Rows(c, w)| && t.phase.shard <= c.shards
    requires || (u.phase.start == t.phase.start && u.phase.shard == t.phase.shard + 1)
             || (u.phase.start == t.phase.start + c.lr.batchSize && u.phase.shard == 0)
    ensures Left(c, w, u) < Left(c, w, t)
  {
    hide Rows, Epochs;
    var rows := |Rows(c, w)|;
    if u.phase.shard == 0 {
      RowsCostGrows(rows - u.phase.start, rows - t.phase.start, c.shards);
    }
    hide RowsCost;
  }

  lemma EpochShrinks(c: Setup, w: nat, t: Trainer)
    requires ValidSetup(c) && t.phase.Pushing? && t.phase.target == c.shards && !t.phase.waiting && t.epoch < c.lr.epochs
    ensures Left(c, w, Trainer(t.epoch + 1, BeginEpoch(c, t.epoch + 1))) < Left(c, w, t)
  {
    hide Rows;
    var rows := |Rows(c, w)|;
    OneEpochLess(c.lr.epochs - t.epoch - 2, EpochCost(rows, c.shards));
    OneEpochLess(c.lr.epochs - t.epoch - 1, EpochCost(rows, c.shards));
    hide RowsCost, Epochs;
  }

  /** A step changes one worker only, and either nothing at all or it leaves that worker less to do. */
  lemma StepShrinks(c: Setup, a: Cluster, b: Cluster, w: nat)
    requires ValidSetup(c) && ClusterInv(c, a) && w < c.workers && StepOf(c, a, b, w)
    ensures |b.trainers| == c.workers
    ensures forall v: nat | v < c.workers && v != w :: b.trainers[v] == a.trainers[v]
    ensures b == a || Left(c, w, b.trainers[w]) < Left(c, w, a.trainers[w])
  {
    var t := a.trainers[w];
    assert TrainerInv(c, w, t);
    hide ShardInv, PulledFrom, Gathers, Lists, TrainerInv, Push, GroupFor, Rows;
    if t.phase.Pulling? {
      if t.phase.start < |Rows(c, w)| {
        PullShrinks(c, w, t, b.trainers[w]);
      } else {
        PackShrinks(c, w, t, b.trainers[w]);
      }
    } else if t.phase.target == c.shards {
      EpochShrinks(c, w, t);
    } else {
      RequestShrinks(c, a, b, w);
    }
  }

  lemma PackShrinks(c: Setup, w: nat, t: Trainer, u: Trainer)
    requires ValidSetup(c) && t.phase.Pulling? && t.phase.start >= |Rows(c, w)|
    requires u.epoch == t.epoch && u.phase.Pushing? && u.phase.target == 0 && !u.phase.waiting
    ensures Left(c, w, u) < Left(c, w, t)
  {
    hide Rows, Epochs;
  }

  lemma RequestShrinks(c: Setup, a: Cluster, b: Cluster, w: nat)
    requires ValidSetup(c) && |a.shards| == c.shards && w < |a.trainers|
    requires PushStep(c, a, b, w) || WakeStep(c, a, b, w)
    ensures b == a || Left(c, w, b.trainers[w]) < Left(c, w, a.trainers[w])
  {
    hide Rows, Epochs, Push, GroupFor, Barrier, Ready, Has;
    var t, u := a.trainers[w], b.trainers[w];
    if u == t {
      BarrierAnswers(a.shards[t.phase.target], t.epoch);
      assert b.shards == a.shards;
    }
  }

  lemma BarrierAnswers(sh: Shard, clock: int)
    ensures Barrier(sh, clock).1 != Waiting
  {
    hide PopAll, Merge, Apply, Sorted, SyncOnly;
  }

  function TotalLeft(c: Setup, a: Cluster, n: nat): int
    requires c.workers > 0 && n <= |a.trainers|
  {
    if n == 0 then 0 else TotalLeft(c, a, n - 1) + Left(c, n - 1, a.trainers[n - 1])
  }

  lemma {:induction false} TotalIsNatural(c: Setup, a: Cluster, n: nat)
    requires ValidSetup(c) && ClusterInv(c, a) && n <= c.workers
    ensures TotalLeft(c, a, n) >= 0
  {
    hide Left, ShardInv;
    if n > 0 {
      TotalIsNatural(c, a, n - 1);
      hide TrainerInv;
      LeftIsNatural(c, n - 1, a.trainers[n - 1]);
    }
  }

  lemma {:induction false} TotalShrinks(c: Setup, a: Cluster, b: Cluster, n: nat, w: nat)
    requires c.workers > 0 && n <= |a.trainers| == |b.trainers| && w < |a.trainers|
    requires forall v: nat | v < |a.trainers| && v != w :: b.trainers[v] == a.trainers[v]
    requires Left(c, w, b.trainers[w]) < Left(c, w, a.trainers[w])
    ensures TotalLeft(c, b, n) <= TotalLeft(c, a, n) && (w < n ==> TotalLeft(c, b, n) < TotalLeft(c, a, n))
  {
    hide Left;
    if n > 0 {
      TotalShrinks(c, a, b, n - 1, w);
    }
  }

  /** Every step that changes anything lowers the measure. */
  lemma NextShrinks(c: Setup, a: Cluster, b: Cluster)
    requires ValidSetup(c) && ClusterInv(c, a) && Next(c, a, b)
    ensures |b.trainers| == c.workers && (b == a || TotalLeft(c, b, c.workers) < TotalLeft(c, a, c.workers))
  {
    hide ClusterInv, StepOf, Left, TotalLeft;
    var w: nat :| w < c.workers && StepOf(c, a, b, w);
    StepShrinks(c, a, b, w);
    if b != a {
      TotalShrinks(c, a, b, c.workers, w);
    }
  }

  function Changes(run: seq<Cluster>): nat {
    if |run| < 2 then 0
    else Changes(run[..|run| - 1]) + if run[|run| - 1] != run[|run| - 2] then 1 else 0
  }

  /** In every run only a bounded number of steps change anything; the rest are vain wake-ups. */
  lemma {:induction false} ChangesAreBounded(c: Setup, run: seq<Cluster>)
    requires ValidSetup(c) && Behaviour(c, run)
    ensures |run[0].trainers| == |run[|run| - 1].trainers| == c.workers
    ensures Changes(run) + TotalLeft(c, run[|run| - 1], c.workers) <= TotalLeft(c, run[0], c.workers)
    ensures Changes(run) <= TotalLeft(c, run[0], c.workers)
  {
    var last := |run| - 1;
    BehaviourInv(c, run, last);
    BehaviourInv(c, run, 0);
    TotalIsNatural(c, run[last], c.workers);
    hide TotalLeft, ShardInv, TrainerInv;
    if last > 0 {
      var before := run[..last];
      ChangesAreBounded(c, before);
      BehaviourInv(c, run, last - 1);
      assert Next(c, run[last - 1], run[last - 1 + 1]);
      hide ClusterInv, Next;
      NextShrinks(c, run[last - 1], run[last]);
    }
  }

  // ----- main results -----

  predicate AllFinished(a: Cluster) {
    forall t | t in a.trainers :: t.phase.Finished?
  }

  /** A run whose last state is not finished can go on, by a step that is not a vain wake-up. */
  lemma RunsGoOn(c: Setup, run: seq<Cluster>) returns (b: Cluster)
    requires ValidSetup(c) && Behaviour(c, run) && |run[|run| - 1].trainers| == c.workers
    requires !AllFinished(run[|run| - 1])
    ensures Behaviour(c, run + [b]) && b != run[|run| - 1]
  {
    var last := |run| - 1;
    assert exists u: nat :: u < c.workers && !run[last].trainers[u].phase.Finished? by {
      var t :| t in run[last].trainers && !t.phase.Finished?;
      var u :| 0 <= u < c.workers && run[last].trainers[u] == t;
    }
    var w := Progress(c, run, last);
    BehaviourInv(c, run, last);
    hide Initial, ShardInv, TrainerInv;
    b := StepExists(c, run[last], w);
    hide StepOf, Moves, ClusterInv;
    var longer := run + [b];
    forall i | 0 <= i < |longer| - 1 ensures Next(c, longer[i], longer[i + 1]) {
      if i < last {
        assert longer[i] == run[i] && longer[i + 1] == run[i + 1];
      } else {
        assert longer[i] == run[last] && longer[i + 1] == b;
      }
    }
  }

  lemma RunsComeCloser(c: Setup, run: seq<Cluster>) returns (b: Cluster)
    requires ValidSetup(c) && Behaviour(c, run) && |run[|run| - 1].trainers| == c.workers
    requires !AllFinished(run[|run| - 1])
    ensures Behaviour(c, run + [b]) && |b.trainers| == c.workers
    ensures 0 <= TotalLeft(c, b, c.workers) < TotalLeft(c, run[|run| - 1], c.workers)
  {
    b := RunsGoOn(c, run);
    var longer := run + [b];
    BehaviourInv(c, run, |run| - 1);
    BehaviourInv(c, longer, |run|);
    assert Next(c, longer[|run| - 1], longer[|run| - 1 + 1]);
    hide Behaviour, TotalLeft, ShardInv, TrainerInv;
    TotalIsNatural(c, b, c.workers);
    hide ClusterInv, Next;
    NextShrinks(c, run[|run| - 1], b);
  }

  /** Every run can be brought to its end, where every worker has finished. */
  lemma {:induction false} RunsCanFinish(c: Setup, run: seq<Cluster>) returns (longer: seq<Cluster>)
    requires ValidSetup(c) && Behaviour(c, run) && |run[|run| - 1].trainers| == c.workers
    ensures Behaviour(c, longer) && run <= longer && AllFinished(longer[|longer| - 1])
    decreases TotalLeft(c, run[|run| - 1], c.workers)
  {
    longer := run;
    if !AllFinished(run[|run| - 1]) {
      var b := RunsComeCloser(c, run);
      assert |run| > 0;
      hide Behaviour, TotalLeft, AllFinished, ValidSetup;
      longer := RunsCanFinish(c, run + [b]);
    }
  }

  lemma FirstState(c: Setup) returns (a: Cluster)
    requires ValidSetup(c)
    ensures Initial(c, a) && |a.trainers| == c.workers
  {
    var ids: seq<Id> := seq(c.workers, i => i + 1);
    forall x ensures x in ids <==> 1 <= x <= c.workers {
      if 1 <= x <= c.workers {
        assert ids[x - 1] == x;
      }
    }
    var shard := RegisterAll(New(Sync, map[]), ids);
    hide RegisterAll;
    a := Cluster(seq(c.shards, _ => shard), seq(c.workers, i => Trainer(0, BeginEpoch(c, 0))));
  }

  /** There is a complete run of every setup, and it ends with the weights of the baseline. */
  lemma SomeRunTrains(c: Setup) returns (run: seq<Cluster>)
    requires ValidSetup(c)
    ensures Behaviour(c, run) && AllFinished(run[|run| - 1]) && |run[|run| - 1].shards| == c.shards
    ensures forall k: Key ::
              Scalar(PullOne(run[|run| - 1].shards[c.shardOf(k)], k).0) == WeightsAfter(c.lr, c.lr.epochs)(k)
    ensures forall path: nat -> Key -> real, k: Key | Descends(c.lr, path) ::
              Scalar(PullOne(run[|run| - 1].shards[c.shardOf(k)], k).0) == path(c.lr.epochs)(k)
  {
    var a := FirstState(c);
    run := RunsCanFinish(c, [a]);
    hide Behaviour, WeightsAfter, PullOne, Descends;
    var end := run[|run| - 1];
    forall k: Key
      ensures |end.shards| == c.shards && Scalar(PullOne(end.shards[c.shardOf(k)], k).0) == WeightsAfter(c.lr, c.lr.epochs)(k)
      ensures forall path: nat -> Key -> real | Descends(c.lr, path) ::
                Scalar(PullOne(end.shards[c.shardOf(k)], k).0) == path(c.lr.epochs)(k)
    {
      TrainsTheBaseline(c, run, k);
    }
    TrainsTheBaseline(c, run, BIAS_KEY);
  }
}
