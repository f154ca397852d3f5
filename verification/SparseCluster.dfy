/**
 Workers training sparse logistic regression against several shards, in sync mode, with every
 worker registered before the first round. A step is one request to one shard, one wake-up of
 a waiting push, or one local computation, of any worker: every interleaving is a run.
 Runs without barrier timeouts train exactly what the local baseline trains.
 */
module SparseCluster {
  import opened Arithmetic
  import opened Sums
  import opened SparseProtocol
  import opened SparseShard
  import opened SparseLedger
  import opened SparseLr

  datatype Setup = Setup(lr: Config, workers: nat, shards: nat, shardOf: Key -> nat, number: int -> int)

  ghost predicate ValidSetup(c: Setup) {
    && c.workers > 0 && c.shards > 0 && c.lr.batchSize > 0
    && (forall k: Key :: c.shardOf(k) < c.shards)
    && Permutes(c.workers, c.number)
  }

  datatype Phase =
    | Pulling(start: nat, shard: nat, seen: Weights, acc: Weights)
    | Pushing(target: nat, updates: seq<Entry>, waiting: bool)
    | Finished

  datatype Trainer = Trainer(epoch: nat, phase: Phase)

  datatype Cluster = Cluster(shards: seq<Shard>, trainers: seq<Trainer>)

  /**
   Workers in the order of their id strings; 0 is kept for the empty id. Worker w is started with
   number c.number(w) and registers as "lr-" and that number: "lr-10" comes before "lr-2".
   */
  function IdOf(w: nat): Id { w + 1 }

  function Rows(c: Setup, w: nat): seq<int>
    requires c.workers > 0
  {
    LocalRows(if c.number(w) >= 0 then c.number(w) else 0, |c.lr.data|, c.workers)
  }

  function Batch(c: Setup, w: nat, start: nat): seq<int>
    requires c.workers > 0 && start <= |Rows(c, w)|
  {
    Rows(c, w)[start..Min(start + c.lr.batchSize, |Rows(c, w)|)]
  }

  ghost predicate BatchReads(c: Setup, batch: seq<int>, k: Key) {
    k == BIAS_KEY || exists i :: i in batch && 0 <= i < |c.lr.data| && Reads(c.lr.data[i], k)
  }

  function Scalar(v: seq<real>): real { if |v| > 0 then v[0] else 0.0 }

  /** The entries list a dictionary of scalar updates, in any order. */
  ghost predicate Lists(es: seq<Entry>, m: Weights) {
    && DistinctKeys(es)
    && (forall i | 0 <= i < |es| :: es[i].key in m && es[i] == Entry(es[i].key, [m[es[i].key]], Add))
    && (forall k | k in m :: HasKey(es, k))
  }

  /** The part of a push that goes to one shard; it is sent even when it is empty. */
  function GroupFor(c: Setup, es: seq<Entry>, s: nat): seq<Entry> {
    if es == [] then []
    else (if c.shardOf(es[0].key) == s then [es[0]] else []) + GroupFor(c, es[1..], s)
  }

  // ----- steps -----

  ghost predicate PullStep(c: Setup, a: Cluster, b: Cluster, w: nat)
    requires ValidSetup(c) && w < |a.trainers| && |a.shards| == c.shards
  {
    var t := a.trainers[w];
    && t.phase.Pulling? && t.phase.start < |Rows(c, w)| && t.phase.shard < c.shards
    && exists seen: Weights ::
         && b == Cluster(a.shards, a.trainers[w := t.(phase := t.phase.(shard := t.phase.shard + 1, seen := seen))])
         && PulledFrom(c, a.shards[t.phase.shard], t.phase.shard, Batch(c, w, t.phase.start), t.phase.seen, seen)
  }

  ghost predicate PulledFrom(c: Setup, sh: Shard, s: nat, batch: seq<int>, before: Weights, after: Weights) {
    forall k: Key ::
      if BatchReads(c, batch, k) && c.shardOf(k) == s then k in after && after[k] == Scalar(PullOne(sh, k).0)
      else (k in after <==> k in before) && (k in after ==> after[k] == before[k])
  }

  ghost predicate ComputeStep(c: Setup, a: Cluster, b: Cluster, w: nat)
    requires ValidSetup(c) && w < |a.trainers|
  {
    var t := a.trainers[w];
    && t.phase.Pulling? && t.phase.start < |Rows(c, w)| && t.phase.shard == c.shards
    && exists acc: Weights ::
         && b == a.(trainers := a.trainers[w := t.(phase := Pulling(t.phase.start + c.lr.batchSize, 0, map[], acc))])
         && Gathers(c, Batch(c, w, t.phase.start), t.phase.seen, t.phase.acc, acc)
  }

  /** The batch's gradients at the pulled weights are added to what was accumulated. */
  ghost predicate Gathers(c: Setup, batch: seq<int>, seen: Weights, before: Weights, after: Weights) {
    forall k: Key :: Get(after, k) == Get(before, k) + SumRows(batch, RowTerm(c.lr, k => Get(seen, k), k))
  }

  ghost predicate PackStep(c: Setup, a: Cluster, b: Cluster, w: nat)
    requires ValidSetup(c) && w < |a.trainers|
  {
    var t := a.trainers[w];
    && t.phase.Pulling? && t.phase.start >= |Rows(c, w)|
    && exists updates: seq<Entry> ::
         && b == a.(trainers := a.trainers[w := t.(phase := Pushing(0, updates, false))])
         && Lists(updates, ScaledUpdates(t.phase.acc, c.lr.learningRate, |c.lr.data|))
  }

  /** The answer a push or a wake-up gets moves the worker on, or makes it wait. */
  function Answered(t: Trainer, reply: Reply): Trainer
    requires t.phase.Pushing?
  {
    if reply == Waiting then t.(phase := t.phase.(waiting := true))
    else t.(phase := t.phase.(target := t.phase.target + 1, waiting := false))
  }

  ghost predicate PushStep(c: Setup, a: Cluster, b: Cluster, w: nat)
    requires ValidSetup(c) && w < |a.trainers| && |a.shards| == c.shards
  {
    var t := a.trainers[w];
    && t.phase.Pushing? && !t.phase.waiting && t.phase.target < c.shards
    && var p := t.phase.target;
       var (sh, reply) := Push(a.shards[p], IdOf(w), t.epoch, GroupFor(c, t.phase.updates, p), false);
       !reply.Failed? && b == Cluster(a.shards[p := sh], a.trainers[w := Answered(t, reply)])
  }

  ghost predicate WakeStep(c: Setup, a: Cluster, b: Cluster, w: nat)
    requires ValidSetup(c) && w < |a.trainers| && |a.shards| == c.shards
  {
    var t := a.trainers[w];
    && t.phase.Pushing? && t.phase.waiting && t.phase.target < c.shards
    && var p := t.phase.target;
       var (sh, reply) := Pass(a.shards[p], IdOf(w), t.epoch, false);
       !reply.Failed? && b == Cluster(a.shards[p := sh], a.trainers[w := Answered(t, reply)])
  }

  ghost predicate NextEpochStep(c: Setup, a: Cluster, b: Cluster, w: nat)
    requires ValidSetup(c) && w < |a.trainers|
  {
    var t := a.trainers[w];
    && t.phase.Pushing? && t.phase.target == c.shards
    && b == a.(trainers := a.trainers[w := Trainer(t.epoch + 1, BeginEpoch(c, t.epoch + 1))])
  }

  function BeginEpoch(c: Setup, epoch: nat): Phase {
    if epoch < c.lr.epochs then Pulling(0, 0, map[], map[]) else Finished
  }

  ghost predicate Next(c: Setup, a: Cluster, b: Cluster)
    requires ValidSetup(c)
  {
    |a.shards| == c.shards && |a.trainers| == c.workers &&
    exists w: nat :: w < c.workers && StepOf(c, a, b, w)
  }

  ghost predicate StepOf(c: Setup, a: Cluster, b: Cluster, w: nat)
    requires ValidSetup(c) && w < |a.trainers| && |a.shards| == c.shards
  {
    PullStep(c, a, b, w) || ComputeStep(c, a, b, w) || PackStep(c, a, b, w) ||
    PushStep(c, a, b, w) || WakeStep(c, a, b, w) || NextEpochStep(c, a, b, w)
  }

  /** Registrations in any order that together enroll exactly the workers of the run. */
  function RegisterAll(sh: Shard, ids: seq<Id>): Shard {
    if ids == [] then sh else Register(RegisterAll(sh, ids[..|ids| - 1]), ids[|ids| - 1]).0
  }

  ghost predicate Initial(c: Setup, a: Cluster)
    requires ValidSetup(c)
  {
    && |a.shards| == c.shards
    && (forall s | 0 <= s < c.shards :: exists ids: seq<Id> ::
          a.shards[s] == RegisterAll(New(Sync, map[]), ids) && forall x :: x in ids <==> 1 <= x <= c.workers)
    && a.trainers == seq(c.workers, i => Trainer(0, BeginEpoch(c, 0)))
  }

  ghost predicate Behaviour(c: Setup, run: seq<Cluster>)
    requires ValidSetup(c)
  {
    |run| > 0 && Initial(c, run[0]) && forall i | 0 <= i < |run| - 1 :: Next(c, run[i], run[i + 1])
  }

  // ----- the invariant -----

  /** The update worker w owes for an epoch, at the weights every worker should see in it. */
  function Update(c: Setup, w: nat, epoch: nat, k: Key): real
    requires c.workers > 0
  {
    Times(Scale(c.lr), SumRows(Rows(c, w), RowTerm(c.lr, WeightsAfter(c.lr, epoch), k)))
  }

  /** How many of its rounds a worker has handed to shard s, and has seen finished there. */
  function Submitted(t: Trainer, s: nat): nat {
    t.epoch + if t.phase.Pushing? && (t.phase.target > s || (t.phase.target == s && t.phase.waiting)) then 1 else 0
  }

  function Returned(t: Trainer, s: nat): nat {
    t.epoch + if t.phase.Pushing? && t.phase.target > s then 1 else 0
  }

  /** The number of barriers shard s has passed. */
  function Round(sh: Shard): int { ClockOf(sh, IdOf(0)) + 1 }

  const ONE: Key -> nat := _ => 1

  ghost predicate SyncShard(c: Setup, sh: Shard) {
    && sh.mode == Sync
    && (forall x: Id :: x in sh.workers <==> 1 <= x <= c.workers)
    && (forall x: Id | 1 <= x <= c.workers :: ModeOf(sh, x) == Sync && ClockOf(sh, x) == Round(sh) - 1)
    && Round(sh) >= 0
  }

  ghost predicate Contents(c: Setup, s: nat, sh: Shard) {
    && (forall k | k in sh.values :: |sh.values[k]| == 1)
    && (Round(sh) >= 0 ==> forall k: Key ::
          Stored(sh, k, 0) == if c.shardOf(k) == s then WeightsAfter(c.lr, Round(sh))(k) else 0.0)
  }

  ghost predicate SlotHolds(c: Setup, s: nat, sh: Shard, w: nat)
    requires c.workers > 0
  {
    Round(sh) >= 0 ==>
      var es := PendingAt(sh, Slot(IdOf(w), Round(sh)));
      && Additive(es, ONE) && DistinctKeys(es)
      && forall k: Key :: Total(es, k, 0) == if c.shardOf(k) == s then Update(c, w, Round(sh), k) else 0.0
  }

  ghost predicate Slots(c: Setup, s: nat, sh: Shard, trainers: seq<Trainer>)
    requires c.workers > 0 && |trainers| == c.workers
  {
    && (forall x: Slot :: Has(sh, x) <==>
          1 <= x.worker <= c.workers && x.clock == Round(sh) && Submitted(trainers[x.worker - 1], s) == Round(sh) + 1)
    && (forall w: nat | w < c.workers && Submitted(trainers[w], s) == Round(sh) + 1 :: SlotHolds(c, s, sh, w))
  }

  ghost predicate InStep(c: Setup, s: nat, r: int, trainers: seq<Trainer>)
    requires |trainers| == c.workers
  {
    && (forall w: nat | w < c.workers :: Returned(trainers[w], s) <= r <= Submitted(trainers[w], s) <= r + 1)
    && (exists w: nat :: w < c.workers && Submitted(trainers[w], s) == r)
  }

  ghost predicate ShardInv(c: Setup, s: nat, sh: Shard, trainers: seq<Trainer>)
    requires c.workers > 0 && |trainers| == c.workers
  {
    SyncShard(c, sh) && Contents(c, s, sh) && Slots(c, s, sh, trainers) && InStep(c, s, Round(sh), trainers)
  }

  ghost predicate TrainerInv(c: Setup, w: nat, t: Trainer)
    requires ValidSetup(c)
  {
    match t.phase
    case Pulling(start, shard, seen, acc) =>
      && t.epoch < c.lr.epochs && shard <= c.shards
      && (forall k | k in seen :: seen[k] == WeightsAfter(c.lr, t.epoch)(k))
      && (start < |Rows(c, w)| ==> forall k | BatchReads(c, Batch(c, w, start), k) && c.shardOf(k) < shard :: k in seen)
      && (forall k: Key :: Get(acc, k) ==
            SumRows(Rows(c, w)[..Min(start, |Rows(c, w)|)], RowTerm(c.lr, WeightsAfter(c.lr, t.epoch), k)))
    case Pushing(target, updates, waiting) =>
      && t.epoch < c.lr.epochs && target <= c.shards && (target == c.shards ==> !waiting)
      && Additive(updates, ONE) && DistinctKeys(updates)
      && (forall k: Key :: Total(updates, k, 0) == Update(c, w, t.epoch, k))
    case Finished => t.epoch == c.lr.epochs
  }

  ghost predicate ClusterInv(c: Setup, a: Cluster)
    requires ValidSetup(c)
  {
    && |a.shards| == c.shards && |a.trainers| == c.workers
    && (forall s: nat | s < c.shards :: ShardInv(c, s, a.shards[s], a.trainers))
    && (forall w: nat | w < c.workers :: TrainerInv(c, w, a.trainers[w]))
  }

  // ----- one round of updates is one epoch of the baseline -----

  lemma RoundIsEpoch(c: Setup, epoch: nat, k: Key, share: int -> real)
    requires ValidSetup(c)
    requires forall w | 0 <= w < c.workers :: share(w) == Update(c, w, epoch, k)
    ensures WeightsAfter(c.lr, epoch)(k) + Sum(c.workers, share) == WeightsAfter(c.lr, epoch + 1)(k)
  {
    var f := RowTerm(c.lr, WeightsAfter(c.lr, epoch), k);
    hide RowTerm, LocalRows, ScaleOf, Times;
    var rows := (w: int) => if 0 <= w < c.workers then SumRows(Rows(c, w), f) else 0.0;
    var strided := Shares(|c.lr.data|, c.workers, f);
    StrideSplit(|c.lr.data|, c.workers, f, strided);
    SumPermuted(c.workers, c.number, strided, rows);
    hide SumRows;
    SumTimes(c.workers, Scale(c.lr), rows, share);
  }

  // ----- listing and grouping updates -----

  lemma {:induction false} TotalAbsent(es: seq<Entry>, k: Key, j: nat)
    requires !HasKey(es, k)
    ensures Total(es, k, j) == 0.0
  {
    if es != [] {
      assert es[0].key != k;
      assert forall i | 0 <= i < |es[1..]| :: es[1..][i] == es[i + 1];
      TotalAbsent(es[1..], k, j);
    }
  }

  lemma {:induction false} TotalPresent(es: seq<Entry>, i: nat, j: nat)
    requires DistinctKeys(es) && i < |es|
    ensures Total(es, es[i].key, j) == Share(es[i], es[i].key, j)
  {
    if i == 0 {
      assert forall m | 0 <= m < |es[1..]| :: es[1..][m] == es[m + 1];
      TotalAbsent(es[1..], es[0].key, j);
    } else {
      TotalPresent(es[1..], i - 1, j);
    }
  }

  lemma ListedTotal(es: seq<Entry>, m: Weights, k: Key)
    requires Lists(es, m)
    ensures Total(es, k, 0) == Get(m, k)
  {
    if k in m {
      var i :| 0 <= i < |es| && es[i].key == k;
      TotalPresent(es, i, 0);
    } else {
      TotalAbsent(es, k, 0);
    }
  }

  lemma {:induction false} GroupShape(c: Setup, es: seq<Entry>, s: nat)
    requires Additive(es, ONE)
    ensures Additive(GroupFor(c, es, s), ONE)
    ensures forall k: Key :: Total(GroupFor(c, es, s), k, 0) == if c.shardOf(k) == s then Total(es, k, 0) else 0.0
  {
    if es != [] {
      var first := if c.shardOf(es[0].key) == s then [es[0]] else [];
      GroupShape(c, es[1..], s);
      forall k: Key ensures Total(first + GroupFor(c, es[1..], s), k, 0) == if c.shardOf(k) == s then Total(es, k, 0) else 0.0 {
        TotalConcat(first, GroupFor(c, es[1..], s), k, 0);
        assert first != [] ==> first[1..] == [];
      }
    }
  }

  // ----- a barrier adds every worker's update -----

  /** The ids 1..n in increasing order. */
  ghost predicate Roster(ws: seq<Id>, n: nat) {
    Increasing(ws) && forall x :: x in ws <==> 1 <= x <= n
  }

  lemma {:induction false} RosterIsRange(ws: seq<Id>, n: nat)
    requires Roster(ws, n)
    ensures ws == Range(1, n + 1)
  {
    hide Roster;
    if n == 0 {
      RosterEmpty(ws);
    } else {
      RosterTop(ws, n);
      RosterFront(ws, n);
      RosterIsRange(ws[..|ws| - 1], n - 1);
      assert Range(1, n + 1) == Range(1, n) + [n];
    }
  }

  lemma RosterEmpty(ws: seq<Id>)
    requires Roster(ws, 0)
    ensures ws == []
  {
    if ws != [] {
      var x := HeadIsMember(ws);
      assert false;
    }
  }

  lemma HeadIsMember(ws: seq<Id>) returns (x: Id)
    requires ws != []
    ensures x in ws
  {
    x := ws[0];
  }

  lemma RosterTop(ws: seq<Id>, n: nat)
    requires n > 0 && Roster(ws, n)
    ensures |ws| > 0 && ws[|ws| - 1] == n
  {
    assert n in ws;
    var i :| 0 <= i < |ws| && ws[i] == n;
    assert ws[|ws| - 1] in ws;
  }

  lemma RosterFront(ws: seq<Id>, n: nat)
    requires n > 0 && Roster(ws, n) && |ws| > 0 && ws[|ws| - 1] == n
    ensures Roster(ws[..|ws| - 1], n - 1) && ws == ws[..|ws| - 1] + [n]
  {
    var front := ws[..|ws| - 1];
    assert ws == front + [n];
    forall x ensures x in front <==> 1 <= x <= n - 1 {
      assert x in ws <==> x in front || x == n;
      if x in front {
        var i :| 0 <= i < |front| && front[i] == x;
        assert ws[i] < ws[|ws| - 1];
      }
    }
  }

  lemma {:induction false} SlotsTotalAppend(sh: Shard, slots: seq<Slot>, x: Slot, k: Key, j: nat)
    ensures SlotsTotal(sh, slots + [x], k, j) == SlotsTotal(sh, slots, k, j) + Total(PendingAt(sh, x), k, j)
  {
    if slots == [] {
      assert [x][1..] == [];
    } else {
      SlotsTotalAppend(sh, slots[1..], x, k, j);
      assert (slots + [x])[1..] == slots[1..] + [x];
    }
  }

  lemma {:induction false} SlotsTotalSum(sh: Shard, n: nat, clock: int, k: Key, share: int -> real)
    requires forall v | 0 <= v < n :: share(v) == Total(PendingAt(sh, Slot(v + 1, clock)), k, 0)
    ensures SlotsTotal(sh, AtClock(Range(1, n + 1), clock), k, 0) == Sum(n, share)
  {
    if n > 0 {
      SlotsTotalSum(sh, n - 1, clock, k, share);
      assert AtClock(Range(1, n + 1), clock) == AtClock(Range(1, n), clock) + [Slot(n, clock)];
      SlotsTotalAppend(sh, AtClock(Range(1, n), clock), Slot(n, clock), k, 0);
    }
  }

  /** The shard after the last worker of a round has handed in its update. */
  ghost predicate RoundFull(c: Setup, s: nat, sh: Shard)
    requires c.workers > 0
  {
    && SyncShard(c, sh) && Contents(c, s, sh)
    && (forall x: Slot :: Has(sh, x) <==> 1 <= x.worker <= c.workers && x.clock == Round(sh))
    && (forall w: nat | w < c.workers :: SlotHolds(c, s, sh, w))
  }

  lemma RoundFullFits(c: Setup, s: nat, sh: Shard)
    requires c.workers > 0 && RoundFull(c, s, sh)
    ensures Fits(sh, ONE) && Ready(sh, Round(sh))
  {
    forall x: Slot | Has(sh, x) ensures Additive(PendingAt(sh, x), ONE) && DistinctKeys(PendingAt(sh, x)) {
      assert SlotHolds(c, s, sh, x.worker - 1);
    }
  }

  /** What the round-th barrier adds to a key of shard s. */
  function Gain(c: Setup, s: nat, round: int, k: Key): real {
    if round >= 0 && c.shardOf(k) == s then WeightsAfter(c.lr, round + 1)(k) - WeightsAfter(c.lr, round)(k) else 0.0
  }

  /** The barrier then holds the weights of the next epoch, and an empty pending table. */
  lemma BarrierFinishesRound(c: Setup, s: nat, sh: Shard)
    requires ValidSetup(c) && RoundFull(c, s, sh)
    ensures var (next, reply) := Barrier(sh, Round(sh));
      && reply.Applied? && SyncShard(c, next) && Contents(c, s, next)
      && Round(next) == Round(sh) + 1 && forall x: Slot :: !Has(next, x)
  {
    var r := Round(sh);
    RoundFullFits(c, s, sh);
    var ws := SyncOnly(sh, Sorted(sh.workers));
    SyncOnlyIncreasing(sh, Sorted(sh.workers));
    assert Roster(ws, c.workers);
    RosterIsRange(ws, c.workers);
    var popped, done := BarrierApplies(sh, r, ONE);
    var next := AdvanceAll(done, SyncWorkers(sh), r);
    assert Barrier(sh, r).0 == next;
    hide *;
    forall k: Key ensures Stored(done, k, 0) == Stored(sh, k, 0) + Gain(c, s, r, k) {
      RoundTotal(c, s, sh, k);
    }
    AdvancedShard(c, s, sh, popped, done, ws);
  }

  lemma RoundTotal(c: Setup, s: nat, sh: Shard, k: Key)
    requires ValidSetup(c) && RoundFull(c, s, sh)
    ensures SlotsTotal(sh, AtClock(Range(1, c.workers + 1), Round(sh)), k, 0) == Gain(c, s, Round(sh), k)
  {
    hide *;
    RoundNatural(c, s, sh);
    var r: nat := Round(sh);
    var share := (v: int) => Total(PendingAt(sh, Slot(v + 1, r)), k, 0);
    SlotsTotalSum(sh, c.workers, r, k, share);
    SharesAreUpdates(c, s, sh, k, share);
    GainIsSum(c, s, r, k, share);
  }

  lemma RoundNatural(c: Setup, s: nat, sh: Shard)
    requires ValidSetup(c) && RoundFull(c, s, sh)
    ensures c.workers > 0 && Round(sh) >= 0
  {
  }

  lemma SharesAreUpdates(c: Setup, s: nat, sh: Shard, k: Key, share: int -> real)
    requires ValidSetup(c) && RoundFull(c, s, sh)
    requires forall v | 0 <= v < c.workers :: share(v) == Total(PendingAt(sh, Slot(v + 1, Round(sh))), k, 0)
    ensures forall v | 0 <= v < c.workers :: share(v) == if c.shardOf(k) == s then Update(c, v, Round(sh), k) else 0.0
  {
    hide Update, Total, PendingAt;
    forall v: nat | v < c.workers ensures share(v) == if c.shardOf(k) == s then Update(c, v, Round(sh), k) else 0.0 {
      assert SlotHolds(c, s, sh, v);
    }
  }

  lemma GainIsSum(c: Setup, s: nat, r: nat, k: Key, share: int -> real)
    requires ValidSetup(c)
    requires forall v | 0 <= v < c.workers :: share(v) == if c.shardOf(k) == s then Update(c, v, r, k) else 0.0
    ensures Sum(c.workers, share) == Gain(c, s, r, k)
  {
    hide Update, WeightsAfter;
    if c.shardOf(k) == s {
      RoundIsEpoch(c, r, k, share);
    } else {
      SumZero(c.workers, share);
    }
  }

  lemma AdvancedShard(c: Setup, s: nat, sh: Shard, popped: Shard, done: Shard, ws: seq<Id>)
    requires ValidSetup(c) && RoundFull(c, s, sh) && ws == Range(1, c.workers + 1)
    requires SameButPending(popped, sh) && SameButValues(popped, done) && SlotsGone(sh, popped, AtClock(ws, Round(sh)))
    requires forall k | k in done.values :: |done.values[k]| == ONE(k)
    requires forall k: Key :: Stored(done, k, 0) == Stored(sh, k, 0) + Gain(c, s, Round(sh), k)
    ensures var next := AdvanceAll(done, SyncWorkers(sh), Round(sh));
      && SyncShard(c, next) && Contents(c, s, next)
      && Round(next) == Round(sh) + 1 && forall x: Slot :: !Has(next, x)
  {
    var next := AdvanceAll(done, SyncWorkers(sh), Round(sh));
    AdvancedSync(c, sh, done, Round(sh));
    assert next.values == done.values && next.pending == done.pending;
    hide SyncShard, AdvanceAll, SlotHolds, Round, SyncWorkers;
    AllGone(c, sh, popped, next, ws);
    GainedContents(c, s, sh, done, next);
  }

  lemma AllGone(c: Setup, sh: Shard, popped: Shard, next: Shard, ws: seq<Id>)
    requires ws == Range(1, c.workers + 1) && next.pending == popped.pending
    requires SlotsGone(sh, popped, AtClock(ws, Round(sh)))
    requires forall x: Slot :: Has(sh, x) <==> 1 <= x.worker <= c.workers && x.clock == Round(sh)
    ensures forall x: Slot :: !Has(next, x)
  {
    forall x: Slot ensures !Has(next, x) {
      if Has(sh, x) {
        assert AtClock(ws, Round(sh))[x.worker - 1] == x;
      }
    }
  }

  lemma GainedContents(c: Setup, s: nat, sh: Shard, done: Shard, next: Shard)
    requires Contents(c, s, sh) && Round(sh) >= 0 && Round(next) == Round(sh) + 1 && next.values == done.values
    requires forall k | k in done.values :: |done.values[k]| == ONE(k)
    requires forall k: Key :: Stored(done, k, 0) == Stored(sh, k, 0) + Gain(c, s, Round(sh), k)
    ensures Contents(c, s, next)
  {
    hide WeightsAfter, Round;
    forall k: Key ensures Stored(next, k, 0) == Stored(done, k, 0) {
    }
    assert forall k | k in next.values :: |next.values[k]| == ONE(k) == 1;
  }

  lemma AdvancedSync(c: Setup, sh: Shard, done: Shard, r: int)
    requires c.workers > 0 && SyncShard(c, sh) && r == Round(sh)
    requires done.mode == sh.mode && done.workers == sh.workers && done.workerModes == sh.workerModes
    requires done.appliedClock == sh.appliedClock
    ensures var next := AdvanceAll(done, SyncWorkers(sh), r); SyncShard(c, next) && Round(next) == r + 1
  {
    var next := AdvanceAll(done, SyncWorkers(sh), r);
    forall x: Id | 1 <= x <= c.workers ensures ClockOf(next, x) == r && ModeOf(next, x) == Sync {
      assert x in SyncWorkers(sh);
    }
  }

  // ----- pushing and waking on one shard -----

  /** The slot of worker w filled with entries worth its update. */
  lemma FilledShard(c: Setup, s: nat, sh: Shard, trainers: seq<Trainer>, w: nat, current: seq<Entry>)
    requires ValidSetup(c) && |trainers| == c.workers && w < c.workers && ShardInv(c, s, sh, trainers)
    requires Submitted(trainers[w], s) == Round(sh) && Additive(current, ONE) && DistinctKeys(current)
    requires forall k: Key :: Total(current, k, 0) == if c.shardOf(k) == s then Update(c, w, Round(sh), k) else 0.0
    ensures var next := Opened(sh, IdOf(w), Round(sh), current);
      && SyncShard(c, next) && Contents(c, s, next) && Round(next) == Round(sh)
      && (forall x: Slot :: Has(next, x) <==> Has(sh, x) || x == Slot(IdOf(w), Round(sh)))
      && SlotHolds(c, s, next, w)
      && (forall v: nat | v < c.workers && v != w && SlotHolds(c, s, sh, v) :: SlotHolds(c, s, next, v))
  {
    var next := Opened(sh, IdOf(w), Round(sh), current);
    OpenedFrame(sh, IdOf(w), Round(sh), current);
    SameShard(c, s, sh, next);
    hide *;
    NewSlotHolds(c, s, next, w, current);
    forall v: nat | v < c.workers && v != w && SlotHolds(c, s, sh, v) ensures SlotHolds(c, s, next, v) {
      OtherSlotHolds(c, s, sh, next, v);
    }
  }

  lemma NewSlotHolds(c: Setup, s: nat, sh: Shard, w: nat, current: seq<Entry>)
    requires c.workers > 0 && Round(sh) >= 0 && PendingAt(sh, Slot(IdOf(w), Round(sh))) == current
    requires Additive(current, ONE) && DistinctKeys(current)
    requires forall k: Key :: Total(current, k, 0) == if c.shardOf(k) == s then Update(c, w, Round(sh), k) else 0.0
    ensures SlotHolds(c, s, sh, w)
  {
    hide Total, Update, PendingAt, Additive, DistinctKeys;
  }

  lemma OtherSlotHolds(c: Setup, s: nat, sh: Shard, next: Shard, v: nat)
    requires c.workers > 0 && SlotHolds(c, s, sh, v) && Round(next) == Round(sh)
    requires PendingAt(next, Slot(IdOf(v), Round(sh))) == PendingAt(sh, Slot(IdOf(v), Round(sh)))
    ensures SlotHolds(c, s, next, v)
  {
    hide Total, Update, PendingAt, Additive, DistinctKeys;
  }

  lemma OpenedFrame(sh: Shard, id: Id, clock: int, current: seq<Entry>)
    ensures var next := Opened(sh, id, clock, current);
      && next == sh.(pending := next.pending) && Has(next, Slot(id, clock)) && PendingAt(next, Slot(id, clock)) == current
      && (forall x: Slot | x != Slot(id, clock) :: Has(next, x) == Has(sh, x) && PendingAt(next, x) == PendingAt(sh, x))
  {
  }

  lemma SameShard(c: Setup, s: nat, sh: Shard, next: Shard)
    requires SyncShard(c, sh) && Contents(c, s, sh) && next == sh.(pending := next.pending)
    ensures SyncShard(c, next) && Contents(c, s, next) && Round(next) == Round(sh) >= 0
  {
    hide WeightsAfter;
    assert forall x: Id :: ModeOf(next, x) == ModeOf(sh, x) && ClockOf(next, x) == ClockOf(sh, x);
    assert forall k: Key :: Stored(next, k, 0) == Stored(sh, k, 0);
  }

  lemma SubmitAtShard(c: Setup, s: nat, sh: Shard, trainers: seq<Trainer>, w: nat, entries: seq<Entry>)
    requires ValidSetup(c) && |trainers| == c.workers && w < c.workers && ShardInv(c, s, sh, trainers)
    requires var t := trainers[w]; t.phase.Pushing? && !t.phase.waiting && t.phase.target == s
    requires Additive(entries, ONE)
    requires forall k: Key ::
      Total(entries, k, 0) == if c.shardOf(k) == s then Update(c, w, trainers[w].epoch, k) else 0.0
    ensures var (next, reply) := Push(sh, IdOf(w), trainers[w].epoch, entries, false);
      && (reply == Waiting || reply.Applied?)
      && ShardInv(c, s, next, trainers[w := Answered(trainers[w], reply)])
  {
    var t, id, e := trainers[w], IdOf(w), trainers[w].epoch;
    assert Round(sh) == e;
    assert !Has(sh, Slot(id, e)) && id in sh.workers;
    MergeFromKeepsTotals([], entries, ONE);
    var normalized := Merge(entries).entries;
    MergeFromKeepsTotals([], normalized, ONE);
    var current := Merge(normalized).entries;
    assert PendingAt(sh, Slot(id, e)) == [];
    PushUnfolds(sh, id, e, entries, normalized, current, false);
    hide Push, MergeFrom, Pass, Total, Update;
    SubmitFilled(c, s, sh, trainers, w, current);
  }

  ghost predicate Filling(c: Setup, s: nat, sh: Shard, filled: Shard, trainers: seq<Trainer>, w: nat) {
    && ValidSetup(c) && |trainers| == c.workers && w < c.workers && ShardInv(c, s, sh, trainers)
    && trainers[w].phase.Pushing? && !trainers[w].phase.waiting && trainers[w].phase.target == s
    && Round(sh) == trainers[w].epoch == Round(filled)
    && SyncShard(c, filled) && Contents(c, s, filled)
    && (forall x: Slot :: Has(filled, x) <==> Has(sh, x) || x == Slot(IdOf(w), Round(sh)))
    && SlotHolds(c, s, filled, w)
    && (forall v: nat | v < c.workers && v != w && SlotHolds(c, s, sh, v) :: SlotHolds(c, s, filled, v))
  }

  lemma SubmitFilled(c: Setup, s: nat, sh: Shard, trainers: seq<Trainer>, w: nat, current: seq<Entry>)
    requires ValidSetup(c) && |trainers| == c.workers && w < c.workers && ShardInv(c, s, sh, trainers)
    requires var t := trainers[w]; t.phase.Pushing? && !t.phase.waiting && t.phase.target == s
    requires Additive(current, ONE) && DistinctKeys(current)
    requires forall k: Key ::
      Total(current, k, 0) == if c.shardOf(k) == s then Update(c, w, trainers[w].epoch, k) else 0.0
    ensures var (next, reply) := Pass(Opened(sh, IdOf(w), trainers[w].epoch, current), IdOf(w), trainers[w].epoch, false);
      && (reply == Waiting || reply.Applied?)
      && ShardInv(c, s, next, trainers[w := Answered(trainers[w], reply)])
  {
    assert Round(sh) == trainers[w].epoch;
    FilledShard(c, s, sh, trainers, w, current);
    hide Total, Update, Opened;
    FilledPass(c, s, sh, Opened(sh, IdOf(w), trainers[w].epoch, current), trainers, w);
  }

  lemma FilledPass(c: Setup, s: nat, sh: Shard, filled: Shard, trainers: seq<Trainer>, w: nat)
    requires Filling(c, s, sh, filled, trainers, w)
    ensures var (next, reply) := Pass(filled, IdOf(w), trainers[w].epoch, false);
      && (reply == Waiting || reply.Applied?)
      && ShardInv(c, s, next, trainers[w := Answered(trainers[w], reply)])
  {
    if forall v: nat | v < c.workers :: v == w || Submitted(trainers[v], s) == Round(sh) + 1 {
      LastSubmission(c, s, sh, filled, trainers, w);
    } else {
      EarlySubmission(c, s, sh, filled, trainers, w);
    }
  }

  lemma LastSubmission(c: Setup, s: nat, sh: Shard, filled: Shard, trainers: seq<Trainer>, w: nat)
    requires Filling(c, s, sh, filled, trainers, w)
    requires forall v: nat | v < c.workers :: v == w || Submitted(trainers[v], s) == Round(sh) + 1
    ensures var (next, reply) := Pass(filled, IdOf(w), trainers[w].epoch, false);
      reply.Applied? && ShardInv(c, s, next, trainers[w := Answered(trainers[w], reply)])
  {
    var r := Round(sh);
    FilledIsFull(c, s, sh, filled, trainers, w);
    BarrierFinishesRound(c, s, filled);
    assert Pass(filled, IdOf(w), r, false) == Barrier(filled, r) by { RoundFullFits(c, s, filled); }
    var (next, reply) := Barrier(filled, r);
    hide *;
    AllSubmitted(c, s, next, trainers, w, reply, r);
  }

  lemma AllSubmitted(c: Setup, s: nat, next: Shard, trainers: seq<Trainer>, w: nat, reply: Reply, r: int)
    requires c.workers > 0 && |trainers| == c.workers && w < c.workers && reply.Applied?
    requires trainers[w].phase.Pushing? && trainers[w].phase.target == s && trainers[w].epoch == r
    requires forall v: nat | v < c.workers :: v == w || Submitted(trainers[v], s) == r + 1
    requires forall v: nat | v < c.workers :: Returned(trainers[v], s) <= r
    requires SyncShard(c, next) && Contents(c, s, next) && Round(next) == r + 1 && forall x: Slot :: !Has(next, x)
    ensures ShardInv(c, s, next, trainers[w := Answered(trainers[w], reply)])
  {
    hide SyncShard, Contents;
    var after := trainers[w := Answered(trainers[w], reply)];
    forall v: nat | v < c.workers ensures Submitted(after[v], s) == r + 1 && Returned(after[v], s) <= r + 1 {
    }
    assert Submitted(after[0], s) == r + 1;
  }

  lemma FilledIsFull(c: Setup, s: nat, sh: Shard, filled: Shard, trainers: seq<Trainer>, w: nat)
    requires Filling(c, s, sh, filled, trainers, w)
    requires forall v: nat | v < c.workers :: v == w || Submitted(trainers[v], s) == Round(sh) + 1
    ensures RoundFull(c, s, filled)
  {
    hide Contents, SlotHolds, SyncShard;
    forall x: Slot | 1 <= x.worker <= c.workers && x.clock == Round(sh) ensures Has(filled, x) {
      if x.worker != IdOf(w) {
        var v: nat := x.worker - 1;
        assert v < c.workers && v != w;
      }
    }
  }

  lemma EarlySubmission(c: Setup, s: nat, sh: Shard, filled: Shard, trainers: seq<Trainer>, w: nat)
    requires Filling(c, s, sh, filled, trainers, w)
    requires exists v: nat :: v < c.workers && v != w && Submitted(trainers[v], s) != Round(sh) + 1
    ensures var (next, reply) := Pass(filled, IdOf(w), trainers[w].epoch, false);
      reply == Waiting && ShardInv(c, s, next, trainers[w := Answered(trainers[w], reply)])
  {
    var r := Round(sh);
    hide Contents, SlotHolds, Slots;
    var v: nat :| v < c.workers && v != w && Submitted(trainers[v], s) != r + 1;
    assert Submitted(trainers[v], s) == r;
    assert !Has(filled, Slot(IdOf(v), r)) by { assert Slots(c, s, sh, trainers); NotYetFilled(c, s, sh, trainers, v); }
    assert IdOf(v) in SyncWorkers(filled);
    assert Pass(filled, IdOf(w), r, false) == (filled, Waiting);
    EarlyShard(c, s, sh, filled, trainers, w, v);
  }

  lemma NotYetFilled(c: Setup, s: nat, sh: Shard, trainers: seq<Trainer>, v: nat)
    requires c.workers > 0 && |trainers| == c.workers && v < c.workers && Slots(c, s, sh, trainers)
    requires Submitted(trainers[v], s) != Round(sh) + 1
    ensures !Has(sh, Slot(IdOf(v), Round(sh)))
  {
    hide SlotHolds, Has;
  }

  lemma EarlyShard(c: Setup, s: nat, sh: Shard, filled: Shard, trainers: seq<Trainer>, w: nat, v: nat)
    requires Filling(c, s, sh, filled, trainers, w)
    requires v < c.workers && v != w && Submitted(trainers[v], s) == Round(sh)
    ensures ShardInv(c, s, filled, trainers[w := Answered(trainers[w], Waiting)])
  {
    hide Contents, SlotHolds, SyncShard, Has, ValidSetup;
    var after := trainers[w := Answered(trainers[w], Waiting)];
    assert Submitted(after[w], s) == Round(sh) + 1;
    assert Submitted(after[v], s) == Round(sh);
  }

  /** A waiting worker wakes to find its round finished, or the same shard as before. */
  lemma WakeAtShard(c: Setup, s: nat, sh: Shard, trainers: seq<Trainer>, w: nat)
    requires ValidSetup(c) && |trainers| == c.workers && w < c.workers && ShardInv(c, s, sh, trainers)
    requires var t := trainers[w]; t.phase.Pushing? && t.phase.waiting && t.phase.target == s
    ensures var (next, reply) := Pass(sh, IdOf(w), trainers[w].epoch, false);
      && next == sh && reply == (if Round(sh) == trainers[w].epoch then Waiting else Joined(sh.globalClock))
      && ShardInv(c, s, sh, trainers[w := Answered(trainers[w], reply)])
  {
    var r := Round(sh);
    var v: nat :| v < c.workers && Submitted(trainers[v], s) == r;
    if r == trainers[w].epoch {
      assert IdOf(v) in SyncWorkers(sh) && !Has(sh, Slot(IdOf(v), r));
      assert trainers[w := Answered(trainers[w], Waiting)] == trainers;
    } else {
      assert r == trainers[w].epoch + 1 && !Has(sh, Slot(IdOf(w), r - 1)) && ClockOf(sh, IdOf(w)) == r - 1;
      assert Pass(sh, IdOf(w), r - 1, false) == (sh, Joined(sh.globalClock));
      hide Pass;
      JoinedKeeps(c, s, sh, trainers, w, Joined(sh.globalClock));
    }
  }

  lemma JoinedKeeps(c: Setup, s: nat, sh: Shard, trainers: seq<Trainer>, w: nat, reply: Reply)
    requires c.workers > 0 && |trainers| == c.workers && w < c.workers && ShardInv(c, s, sh, trainers)
    requires var t := trainers[w]; t.phase.Pushing? && t.phase.waiting && t.phase.target == s
    requires reply.Joined? && Round(sh) == trainers[w].epoch + 1
    ensures ShardInv(c, s, sh, trainers[w := Answered(trainers[w], reply)])
  {
    hide Contents, SlotHolds, SyncShard;
    var after := trainers[w := Answered(trainers[w], reply)];
    var v: nat :| v < c.workers && Submitted(trainers[v], s) == Round(sh);
    assert Submitted(after[v], s) == Round(sh);
    assert forall u: nat | u < c.workers :: Submitted(after[u], s) == Submitted(trainers[u], s);
  }

  // ----- every step of every worker keeps the invariant -----

  lemma SameProgress(c: Setup, s: nat, sh: Shard, before: seq<Trainer>, after: seq<Trainer>)
    requires c.workers > 0 && |before| == |after| == c.workers && ShardInv(c, s, sh, before)
    requires forall w | 0 <= w < c.workers ::
      Submitted(after[w], s) == Submitted(before[w], s) && Returned(after[w], s) == Returned(before[w], s)
    ensures ShardInv(c, s, sh, after)
  {
    hide SlotHolds, Contents, SyncShard, Submitted, Returned;
    var v: nat :| v < c.workers && Submitted(before[v], s) == Round(sh);
    assert Submitted(after[v], s) == Round(sh);
  }

  lemma LocalKeeps(c: Setup, a: Cluster, w: nat, t: Trainer)
    requires ValidSetup(c) && ClusterInv(c, a) && w < c.workers && TrainerInv(c, w, t)
    requires forall s: nat | s < c.shards :: Submitted(t, s) == Submitted(a.trainers[w], s) && Returned(t, s) == Returned(a.trainers[w], s)
    ensures ClusterInv(c, a.(trainers := a.trainers[w := t]))
  {
    hide ShardInv, TrainerInv;
    forall s: nat | s < c.shards ensures ShardInv(c, s, a.shards[s], a.trainers[w := t]) {
      SameProgress(c, s, a.shards[s], a.trainers, a.trainers[w := t]);
    }
  }

  lemma TargetKeeps(c: Setup, a: Cluster, w: nat, p: nat, sh: Shard, t: Trainer)
    requires ValidSetup(c) && ClusterInv(c, a) && w < c.workers && p < c.shards && TrainerInv(c, w, t)
    requires ShardInv(c, p, sh, a.trainers[w := t])
    requires forall s: nat | s < c.shards && s != p ::
      Submitted(t, s) == Submitted(a.trainers[w], s) && Returned(t, s) == Returned(a.trainers[w], s)
    ensures ClusterInv(c, Cluster(a.shards[p := sh], a.trainers[w := t]))
  {
    hide ShardInv, TrainerInv;
    var shards := a.shards[p := sh];
    forall s: nat | s < c.shards ensures ShardInv(c, s, shards[s], a.trainers[w := t]) {
      if s != p {
        SameProgress(c, s, a.shards[s], a.trainers, a.trainers[w := t]);
      }
    }
  }

  /** While a worker pulls, every shard has finished exactly the worker's past rounds. */
  lemma PullSeesEpoch(c: Setup, a: Cluster, w: nat, s: nat, k: Key)
    requires ValidSetup(c) && ClusterInv(c, a) && w < c.workers && a.trainers[w].phase.Pulling?
    requires s < c.shards && c.shardOf(k) == s
    ensures Round(a.shards[s]) == a.trainers[w].epoch
    ensures Scalar(PullOne(a.shards[s], k).0) == WeightsAfter(c.lr, a.trainers[w].epoch)(k)
  {
    assert ShardInv(c, s, a.shards[s], a.trainers);
    hide WeightsAfter;
    assert Stored(a.shards[s], k, 0) == Scalar(PullOne(a.shards[s], k).0);
  }

  lemma PullKeeps(c: Setup, a: Cluster, b: Cluster, w: nat)
    requires ValidSetup(c) && ClusterInv(c, a) && w < c.workers && PullStep(c, a, b, w)
    ensures ClusterInv(c, b)
  {
    var t := b.trainers[w];
    var s := a.trainers[w].phase.shard;
    forall k | k in t.phase.seen ensures t.phase.seen[k] == WeightsAfter(c.lr, t.epoch)(k) {
      if c.shardOf(k) == s {
        PullSeesEpoch(c, a, w, s, k);
      }
    }
    assert TrainerInv(c, w, a.trainers[w]);
    assert TrainerInv(c, w, t);
    LocalKeeps(c, a, w, t);
  }

  lemma SeenIsEnough(c: Setup, w: nat, t: Trainer, k: Key)
    requires ValidSetup(c) && TrainerInv(c, w, t) && t.phase.Pulling?
    requires t.phase.start < |Rows(c, w)| && t.phase.shard == c.shards
    ensures SumRows(Batch(c, w, t.phase.start), RowTerm(c.lr, k => Get(t.phase.seen, k), k))
      == SumRows(Batch(c, w, t.phase.start), RowTerm(c.lr, WeightsAfter(c.lr, t.epoch), k))
  {
    var seen := (k: Key) => Get(t.phase.seen, k);
    var weights := WeightsAfter(c.lr, t.epoch);
    var batch := Batch(c, w, t.phase.start);
    hide WeightsAfter, RowGradient;
    forall i | i in batch ensures RowTerm(c.lr, seen, k)(i) == RowTerm(c.lr, weights, k)(i) {
      if 0 <= i < |c.lr.data| {
        forall key | Reads(c.lr.data[i], key) ensures seen(key) == weights(key) {
          assert BatchReads(c, batch, key);
          assert c.shardOf(key) < c.shards;
        }
        RowGradientLocal(c.lr.sigmoid, seen, weights, c.lr.data[i], k);
      }
    }
    SumRowsSame(batch, RowTerm(c.lr, seen, k), RowTerm(c.lr, weights, k));
  }

  lemma TrainerAt(c: Setup, a: Cluster, w: nat)
    requires ValidSetup(c) && ClusterInv(c, a) && w < c.workers
    ensures |a.shards| == c.shards && |a.trainers| == c.workers && TrainerInv(c, w, a.trainers[w])
  {
    hide TrainerInv, ShardInv, ValidSetup;
  }

  lemma ShardAt(c: Setup, a: Cluster, s: nat)
    requires ValidSetup(c) && ClusterInv(c, a) && s < c.shards
    ensures |a.shards| == c.shards && |a.trainers| == c.workers && ShardInv(c, s, a.shards[s], a.trainers)
  {
    hide TrainerInv, ShardInv, ValidSetup;
  }

  lemma ComputeGives(c: Setup, a: Cluster, b: Cluster, w: nat) returns (acc: Weights)
    requires ValidSetup(c) && w < |a.trainers| && ComputeStep(c, a, b, w)
    ensures var t := a.trainers[w];
      && t.phase.Pulling? && t.phase.start < |Rows(c, w)| && t.phase.shard == c.shards
      && b == a.(trainers := a.trainers[w := t.(phase := Pulling(t.phase.start + c.lr.batchSize, 0, map[], acc))])
      && Gathers(c, Batch(c, w, t.phase.start), t.phase.seen, t.phase.acc, acc)
  {
    hide Gathers, Batch, Rows, ValidSetup;
    acc := b.trainers[w].phase.acc;
  }

  lemma ComputeKeeps(c: Setup, a: Cluster, b: Cluster, w: nat)
    requires ValidSetup(c) && ClusterInv(c, a) && w < c.workers && ComputeStep(c, a, b, w)
    ensures ClusterInv(c, b)
  {
    hide *;
    TrainerAt(c, a, w);
    var acc := ComputeGives(c, a, b, w);
    var before := a.trainers[w];
    ComputedTrainer(c, w, before, acc);
    var after := before.(phase := Pulling(before.phase.start + c.lr.batchSize, 0, map[], acc));
    NothingSubmitted(before, after);
    LocalKeeps(c, a, w, after);
  }

  lemma NothingSubmitted(before: Trainer, after: Trainer)
    requires before.phase.Pulling? && after.phase.Pulling? && after.epoch == before.epoch
    ensures forall s: nat :: Submitted(after, s) == Submitted(before, s) && Returned(after, s) == Returned(before, s)
  {
  }

  lemma PullingInv(c: Setup, w: nat, epoch: nat, start: nat, acc: Weights, rows: seq<int>)
    requires ValidSetup(c) && epoch < c.lr.epochs && rows == Rows(c, w)[..Min(start, |Rows(c, w)|)]
    requires forall k: Key :: Get(acc, k) == SumRows(rows, RowTerm(c.lr, WeightsAfter(c.lr, epoch), k))
    ensures TrainerInv(c, w, Trainer(epoch, Pulling(start, 0, map[], acc)))
  {
    hide RowTerm, WeightsAfter, Rows, SumRows, BatchReads, Batch, ValidSetup;
  }

  lemma InEpoch(c: Setup, w: nat, t: Trainer)
    requires ValidSetup(c) && TrainerInv(c, w, t) && !t.phase.Finished?
    ensures t.epoch < c.lr.epochs
  {
    hide Rows, Batch, SumRows, RowTerm, WeightsAfter, BatchReads, Update, Total, ValidSetup;
  }

  lemma ComputedTrainer(c: Setup, w: nat, before: Trainer, acc: Weights)
    requires ValidSetup(c) && w < c.workers && TrainerInv(c, w, before)
    requires before.phase.Pulling? && before.phase.start < |Rows(c, w)| && before.phase.shard == c.shards
    requires Gathers(c, Batch(c, w, before.phase.start), before.phase.seen, before.phase.acc, acc)
    ensures TrainerInv(c, w, before.(phase := Pulling(before.phase.start + c.lr.batchSize, 0, map[], acc)))
  {
    var start := before.phase.start + c.lr.batchSize;
    var rows := Rows(c, w)[..Min(start, |Rows(c, w)|)];
    hide *;
    InEpoch(c, w, before);
    forall k: Key ensures Get(acc, k) == SumRows(rows, RowTerm(c.lr, WeightsAfter(c.lr, before.epoch), k)) {
      Gathered(c, w, before, acc, rows, k);
    }
    PullingInv(c, w, before.epoch, start, acc, rows);
  }

  lemma Gathered(c: Setup, w: nat, before: Trainer, acc: Weights, rows: seq<int>, k: Key)
    requires ValidSetup(c) && w < c.workers && TrainerInv(c, w, before)
    requires before.phase.Pulling? && before.phase.start < |Rows(c, w)| && before.phase.shard == c.shards
    requires Gathers(c, Batch(c, w, before.phase.start), before.phase.seen, before.phase.acc, acc)
    requires rows == Rows(c, w)[..Min(before.phase.start + c.lr.batchSize, |Rows(c, w)|)]
    ensures Get(acc, k) == SumRows(rows, RowTerm(c.lr, WeightsAfter(c.lr, before.epoch), k))
  {
    hide *;
    var start := before.phase.start;
    var f := RowTerm(c.lr, WeightsAfter(c.lr, before.epoch), k);
    BatchFollows(c, w, start);
    GatheredSoFar(c, w, before, k);
    NewlyGathered(c, w, before, acc, k);
    SeenIsEnough(c, w, before, k);
    SumRowsConcat(Rows(c, w)[..start], Batch(c, w, start), f);
  }

  lemma BatchFollows(c: Setup, w: nat, start: nat)
    requires c.workers > 0 && start < |Rows(c, w)|
    ensures Min(start + c.lr.batchSize, |Rows(c, w)|) <= |Rows(c, w)|
    ensures Rows(c, w)[..Min(start + c.lr.batchSize, |Rows(c, w)|)] == Rows(c, w)[..start] + Batch(c, w, start)
  {
    hide Rows;
  }

  lemma GatheredSoFar(c: Setup, w: nat, t: Trainer, k: Key)
    requires ValidSetup(c) && TrainerInv(c, w, t) && t.phase.Pulling? && t.phase.start < |Rows(c, w)|
    ensures Get(t.phase.acc, k) == SumRows(Rows(c, w)[..t.phase.start], RowTerm(c.lr, WeightsAfter(c.lr, t.epoch), k))
  {
    hide RowTerm, WeightsAfter, Rows, SumRows, BatchReads, Batch, ValidSetup, Get;
  }

  lemma NewlyGathered(c: Setup, w: nat, t: Trainer, acc: Weights, k: Key)
    requires c.workers > 0 && t.phase.Pulling? && t.phase.start < |Rows(c, w)|
    requires Gathers(c, Batch(c, w, t.phase.start), t.phase.seen, t.phase.acc, acc)
    ensures Get(acc, k) == Get(t.phase.acc, k)
      + SumRows(Batch(c, w, t.phase.start), RowTerm(c.lr, k => Get(t.phase.seen, k), k))
  {
    hide RowTerm, Rows, SumRows, Batch, Get;
  }

  lemma PackKeeps(c: Setup, a: Cluster, b: Cluster, w: nat)
    requires ValidSetup(c) && ClusterInv(c, a) && w < c.workers && PackStep(c, a, b, w)
    ensures ClusterInv(c, b)
  {
    var before, t := a.trainers[w], b.trainers[w];
    assert TrainerInv(c, w, before);
    var m := ScaledUpdates(before.phase.acc, c.lr.learningRate, |c.lr.data|);
    assert Rows(c, w)[..|Rows(c, w)|] == Rows(c, w);
    hide RowTerm, WeightsAfter, Times;
    forall k: Key ensures Total(t.phase.updates, k, 0) == Update(c, w, t.epoch, k) {
      ListedTotal(t.phase.updates, m, k);
    }
    assert TrainerInv(c, w, t);
    LocalKeeps(c, a, w, t);
  }

  lemma NextEpochKeeps(c: Setup, a: Cluster, b: Cluster, w: nat)
    requires ValidSetup(c) && ClusterInv(c, a) && w < c.workers && NextEpochStep(c, a, b, w)
    ensures ClusterInv(c, b)
  {
    var t := b.trainers[w];
    assert TrainerInv(c, w, a.trainers[w]);
    assert Rows(c, w)[..0] == [];
    assert TrainerInv(c, w, t);
    LocalKeeps(c, a, w, t);
  }

  lemma PushGives(c: Setup, a: Cluster, b: Cluster, w: nat)
    requires ValidSetup(c) && w < |a.trainers| && |a.shards| == c.shards && PushStep(c, a, b, w)
    ensures var t := a.trainers[w];
      && t.phase.Pushing? && !t.phase.waiting && t.phase.target < c.shards
      && var (sh, reply) := Push(a.shards[t.phase.target], IdOf(w), t.epoch, GroupFor(c, t.phase.updates, t.phase.target), false);
         b == Cluster(a.shards[t.phase.target := sh], a.trainers[w := Answered(t, reply)])
  {
    hide Push, GroupFor, ValidSetup;
  }

  lemma PushKeeps(c: Setup, a: Cluster, b: Cluster, w: nat)
    requires ValidSetup(c) && ClusterInv(c, a) && w < c.workers && PushStep(c, a, b, w)
    ensures ClusterInv(c, b)
  {
    TrainerAt(c, a, w);
    PushGives(c, a, b, w);
    var t := a.trainers[w];
    var p := t.phase.target;
    var entries := GroupFor(c, t.phase.updates, p);
    ShardAt(c, a, p);
    PushedEntries(c, w, t, p);
    var (sh, reply) := Push(a.shards[p], IdOf(w), t.epoch, entries, false);
    hide *;
    SubmitAtShard(c, p, a.shards[p], a.trainers, w, entries);
    AnsweredTrainer(c, w, t, reply);
    TargetKeeps(c, a, w, p, sh, Answered(t, reply));
  }

  lemma PushedEntries(c: Setup, w: nat, t: Trainer, p: nat)
    requires ValidSetup(c) && TrainerInv(c, w, t) && t.phase.Pushing? && p < c.shards
    ensures Additive(GroupFor(c, t.phase.updates, p), ONE)
    ensures forall k: Key ::
      Total(GroupFor(c, t.phase.updates, p), k, 0) == if c.shardOf(k) == p then Update(c, w, t.epoch, k) else 0.0
  {
    GroupShape(c, t.phase.updates, p);
    hide Update, GroupFor, Total;
  }

  /** An answer keeps what the worker has, and concerns only the shard it was sent to. */
  lemma AnsweredTrainer(c: Setup, w: nat, t: Trainer, reply: Reply)
    requires ValidSetup(c) && TrainerInv(c, w, t) && t.phase.Pushing? && t.phase.target < c.shards
    ensures TrainerInv(c, w, Answered(t, reply))
    ensures forall s: nat | s != t.phase.target ::
      Submitted(Answered(t, reply), s) == Submitted(t, s) && Returned(Answered(t, reply), s) == Returned(t, s)
  {
    hide Update, Total, ValidSetup;
  }

  lemma WakeKeeps(c: Setup, a: Cluster, b: Cluster, w: nat)
    requires ValidSetup(c) && ClusterInv(c, a) && w < c.workers && WakeStep(c, a, b, w)
    ensures ClusterInv(c, b)
  {
    var t := a.trainers[w];
    var p := t.phase.target;
    assert TrainerInv(c, w, t) && ShardInv(c, p, a.shards[p], a.trainers);
    WakeAtShard(c, p, a.shards[p], a.trainers, w);
    hide ShardInv, Pass, Update;
    assert TrainerInv(c, w, b.trainers[w]);
    TargetKeeps(c, a, w, p, b.shards[p], b.trainers[w]);
  }

  lemma NextKeeps(c: Setup, a: Cluster, b: Cluster)
    requires ValidSetup(c) && ClusterInv(c, a) && Next(c, a, b)
    ensures ClusterInv(c, b)
  {
    var w: nat :| w < c.workers && StepOf(c, a, b, w);
    hide ClusterInv, PullStep, ComputeStep, PackStep, PushStep, WakeStep, NextEpochStep;
    if {
      case PullStep(c, a, b, w) => PullKeeps(c, a, b, w);
      case ComputeStep(c, a, b, w) => ComputeKeeps(c, a, b, w);
      case PackStep(c, a, b, w) => PackKeeps(c, a, b, w);
      case PushStep(c, a, b, w) => PushKeeps(c, a, b, w);
      case WakeStep(c, a, b, w) => WakeKeeps(c, a, b, w);
      case NextEpochStep(c, a, b, w) => NextEpochKeeps(c, a, b, w);
    }
  }

  lemma {:induction false} RegisteredShard(c: Setup, ids: seq<Id>)
    requires ValidSetup(c) && forall x :: x in ids ==> 1 <= x <= c.workers
    ensures var sh := RegisterAll(New(Sync, map[]), ids);
      && sh.mode == Sync && sh.values == map[]
      && (forall x: Id :: x in sh.workers <==> x in ids)
      && (forall x: Id :: ModeOf(sh, x) == Sync && ClockOf(sh, x) == -1)
      && (forall x: Slot :: !Has(sh, x))
  {
    if ids != [] {
      var front, last := ids[..|ids| - 1], ids[|ids| - 1];
      assert ids == front + [last] && forall x :: x in ids <==> x in front || x == last;
      RegisteredShard(c, front);
      var before, sh := RegisterAll(New(Sync, map[]), front), RegisterAll(New(Sync, map[]), ids);
      assert sh == Enroll(before, last);
      assert forall x: Slot :: Has(sh, x) == Has(before, x);
      forall x: Id ensures ModeOf(sh, x) == Sync && ClockOf(sh, x) == -1 {
        assert ModeOf(before, x) == Sync && ClockOf(before, x) == -1;
      }
    }
  }

  lemma InitialInv(c: Setup, a: Cluster)
    requires ValidSetup(c) && Initial(c, a)
    ensures ClusterInv(c, a)
  {
    forall w: nat | w < c.workers ensures TrainerInv(c, w, a.trainers[w]) {
      assert Rows(c, w)[..0] == [];
    }
    forall s: nat | s < c.shards ensures ShardInv(c, s, a.shards[s], a.trainers) {
      var ids: seq<Id> :| a.shards[s] == RegisterAll(New(Sync, map[]), ids) && forall x :: x in ids <==> 1 <= x <= c.workers;
      RegisteredShard(c, ids);
      assert Submitted(a.trainers[0], s) == 0;
    }
  }

  // ----- main results -----

  lemma {:induction false} BehaviourInv(c: Setup, run: seq<Cluster>, n: nat)
    requires ValidSetup(c) && Behaviour(c, run) && n < |run|
    ensures ClusterInv(c, run[n])
  {
    if n == 0 {
      InitialInv(c, run[0]);
    } else {
      BehaviourInv(c, run, n - 1);
      NextKeeps(c, run[n - 1], run[n]);
    }
  }

  /** Every pull of a worker's epoch, from any shard, reads the baseline's weights of that epoch. */
  lemma BulkSynchronousPulls(c: Setup, run: seq<Cluster>, n: nat, w: nat, k: Key)
    requires ValidSetup(c) && Behaviour(c, run) && n < |run| && w < c.workers
    requires |run[n].trainers| == c.workers && run[n].trainers[w].phase.Pulling?
    ensures |run[n].shards| == c.shards
    ensures Scalar(PullOne(run[n].shards[c.shardOf(k)], k).0) == WeightsAfter(c.lr, run[n].trainers[w].epoch)(k)
    ensures forall path: nat -> Key -> real | Descends(c.lr, path) ::
              Scalar(PullOne(run[n].shards[c.shardOf(k)], k).0) == path(run[n].trainers[w].epoch)(k)
  {
    FollowsDescent(c.lr, run[n].trainers[w].epoch);
    BehaviourInv(c, run, n);
    PullSeesEpoch(c, run[n], w, c.shardOf(k), k);
  }

  /** When every worker has finished, the shards together hold the weights the baseline computes. */
  lemma TrainsTheBaseline(c: Setup, run: seq<Cluster>, k: Key)
    requires ValidSetup(c) && Behaviour(c, run)
    requires forall t | t in run[|run| - 1].trainers :: t.phase.Finished?
    ensures var end := run[|run| - 1];
      && |end.shards| == c.shards
      && forall s: nat | s < c.shards ::
           Scalar(PullOne(end.shards[s], k).0) == if s == c.shardOf(k) then WeightsAfter(c.lr, c.lr.epochs)(k) else 0.0
    ensures forall path: nat -> Key -> real | Descends(c.lr, path) ::
              Scalar(PullOne(run[|run| - 1].shards[c.shardOf(k)], k).0) == path(c.lr.epochs)(k)
  {
    FollowsDescent(c.lr, c.lr.epochs);
    hide Descends;
    var end := run[|run| - 1];
    BehaviourInv(c, run, |run| - 1);
    forall s: nat | s < c.shards
      ensures Scalar(PullOne(end.shards[s], k).0) == if s == c.shardOf(k) then WeightsAfter(c.lr, c.lr.epochs)(k) else 0.0
    {
      assert ShardInv(c, s, end.shards[s], end.trainers);
      var v: nat :| v < c.workers && Submitted(end.trainers[v], s) == Round(end.shards[s]);
      assert end.trainers[v] in end.trainers && TrainerInv(c, v, end.trainers[v]);
      hide WeightsAfter;
      assert Stored(end.shards[s], k, 0) == Scalar(PullOne(end.shards[s], k).0);
    }
  }

  predicate AtShard(c: Setup, a: Cluster, w: nat)
    requires w < |a.trainers|
  {
    a.trainers[w].phase.Pushing? && a.trainers[w].phase.target < c.shards
  }

  /** What the worker's next request to its target shard is answered: a pass of its wait, or its push. */
  function AnswerTo(c: Setup, a: Cluster, w: nat): Reply
    requires w < |a.trainers| && |a.shards| == c.shards && AtShard(c, a, w)
  {
    var t := a.trainers[w];
    if t.phase.waiting then Pass(a.shards[t.phase.target], IdOf(w), t.epoch, false).1
    else Push(a.shards[t.phase.target], IdOf(w), t.epoch, GroupFor(c, t.phase.updates, t.phase.target), false).1
  }

  /** The worker has something to do, and no request of its fails or wakes in vain. */
  predicate Moves(c: Setup, a: Cluster, w: nat)
    requires w < |a.trainers| && |a.shards| == c.shards
  {
    && !a.trainers[w].phase.Finished?
    && (AtShard(c, a, w) ==>
          !AnswerTo(c, a, w).Failed? && (a.trainers[w].phase.waiting ==> AnswerTo(c, a, w) != Waiting))
  }

  /** Until all have finished, some worker can take a step other than waking in vain; no push fails. */
  lemma Progress(c: Setup, run: seq<Cluster>, n: nat) returns (w: nat)
    requires ValidSetup(c) && Behaviour(c, run) && n < |run|
    requires |run[n].trainers| == c.workers
    requires exists u: nat :: u < c.workers && !run[n].trainers[u].phase.Finished?
    ensures w < c.workers == |run[n].trainers| && |run[n].shards| == c.shards && Moves(c, run[n], w)
  {
    BehaviourInv(c, run, n);
    var a := run[n];
    var u: nat :| u < c.workers && !a.trainers[u].phase.Finished?;
    w := u;
    if a.trainers[u].phase.Pushing? && a.trainers[u].phase.waiting && Round(a.shards[a.trainers[u].phase.target]) == a.trainers[u].epoch {
      w := SomeoneBehind(c, a, u);
    }
    assert TrainerInv(c, w, a.trainers[w]);
    if a.trainers[w].phase.Pushing? && a.trainers[w].phase.target < c.shards {
      RequestAnswers(c, a, w);
    }
  }

  lemma RequestAnswers(c: Setup, a: Cluster, w: nat)
    requires ValidSetup(c) && ClusterInv(c, a) && w < c.workers && AtShard(c, a, w)
    requires a.trainers[w].phase.waiting ==> Round(a.shards[a.trainers[w].phase.target]) != a.trainers[w].epoch
    ensures Moves(c, a, w)
  {
    var p := a.trainers[w].phase.target;
    if a.trainers[w].phase.waiting {
      assert ShardInv(c, p, a.shards[p], a.trainers);
      WakeAtShard(c, p, a.shards[p], a.trainers, w);
    } else {
      PushAnswers(c, a, w);
    }
  }

  /** If u waits for others at a shard, one of them has not come that far, and is not blocked itself. */
  lemma SomeoneBehind(c: Setup, a: Cluster, u: nat) returns (w: nat)
    requires ValidSetup(c) && ClusterInv(c, a) && u < c.workers
    requires a.trainers[u].phase.Pushing? && a.trainers[u].phase.waiting
    requires TrainerInv(c, u, a.trainers[u])
    requires Round(a.shards[a.trainers[u].phase.target]) == a.trainers[u].epoch
    ensures w < c.workers && !a.trainers[w].phase.Finished?
    ensures a.trainers[w].phase.Pushing? && a.trainers[w].phase.waiting ==>
              AtShard(c, a, w) && Round(a.shards[a.trainers[w].phase.target]) != a.trainers[w].epoch
  {
    var e, p := a.trainers[u].epoch, a.trainers[u].phase.target;
    assert InStep(c, p, Round(a.shards[p]), a.trainers) by { assert ShardInv(c, p, a.shards[p], a.trainers); }
    w :| w < c.workers && Submitted(a.trainers[w], p) == e;
    var t := a.trainers[w];
    assert TrainerInv(c, w, t);
    if t.phase.Pushing? && t.phase.waiting {
      var q := t.phase.target;
      assert InStep(c, q, Round(a.shards[q]), a.trainers) by { assert ShardInv(c, q, a.shards[q], a.trainers); }
      assert Returned(a.trainers[u], q) >= t.epoch + 1;
    }
  }

  lemma PushAnswers(c: Setup, a: Cluster, w: nat)
    requires ValidSetup(c) && ClusterInv(c, a) && w < c.workers
    requires AtShard(c, a, w) && !a.trainers[w].phase.waiting
    ensures !AnswerTo(c, a, w).Failed?
  {
    var t := a.trainers[w];
    var p := t.phase.target;
    assert TrainerInv(c, w, t) && ShardInv(c, p, a.shards[p], a.trainers);
    GroupShape(c, t.phase.updates, p);
    hide Update, Push, GroupFor;
    SubmitAtShard(c, p, a.shards[p], a.trainers, w, GroupFor(c, t.phase.updates, p));
  }
}
