/**
 What one shard owes to the workers that push to it, over whole runs: a ledger records every
 accepted push, and a record is settled from the moment its slot leaves the pending table.
 Stored values are then exactly the initial values plus the settled records, each once, and the
 pending table holds exactly the others, through barriers, timeouts, late registrations and
 mode switches in both directions.
 Updates are additive with one length per key (Additive); SparseLosses has the other runs.
 */
module SparseLedger {
  import opened SparseProtocol
  import opened SparseShard

  datatype Record = Record(worker: Id, clock: int, entries: seq<Entry>)

  datatype World = World(sh: Shard, log: seq<Record>, settled: set<int>, waiting: map<Id, nat>)

  datatype Event =
    | Registers(w: Id)
    | Pushes(w: Id, clock: int, entries: seq<Entry>, expired: bool)
    | Wakes(w: Id, expired: bool)
    | Switches(mode: Mode, w: Id)

  // ----- steps: one request, or one wake-up of a waiting push, under the shard lock -----

  ghost predicate Enabled(wd: World, ev: Event, len: Key -> nat) {
    match ev
    case Pushes(w, _, entries, _) => w !in wd.waiting && Additive(entries, len)
    case Wakes(w, _) => w in wd.waiting && wd.waiting[w] < |wd.log|
    case _ => true
  }

  function SlotOf(r: Record): Slot { Slot(r.worker, r.clock) }

  /** A record is settled once its slot is no longer pending. */
  function Settle(wd: World, sh: Shard, log: seq<Record>): set<int> {
    wd.settled + set i | 0 <= i < |log| && !Has(sh, SlotOf(log[i]))
  }

  ghost function Answer(wd: World, ev: Event, len: Key -> nat): (Shard, Reply)
    requires Enabled(wd, ev, len) && (ev.Pushes? || ev.Wakes?)
  {
    match ev
    case Pushes(w, clock, entries, expired) => Push(wd.sh, w, clock, entries, expired)
    case Wakes(w, expired) => Pass(wd.sh, w, wd.log[wd.waiting[w]].clock, expired)
  }

  predicate Refused(r: Reply) {
    r == Failed(EmptyWorkerId) || r == Failed(NegativeClock)
  }

  ghost function Step(wd: World, ev: Event, len: Key -> nat): World
    requires Enabled(wd, ev, len)
  {
    match ev
    case Registers(w) => var sh := Register(wd.sh, w).0; wd.(sh := sh)
    case Switches(mode, w) =>
      var sh := SetMode(wd.sh, mode, w).0;
      wd.(sh := sh, settled := Settle(wd, sh, wd.log))
    case Pushes(w, clock, entries, _) =>
      var (sh, reply) := Answer(wd, ev, len);
      if Refused(reply) then wd.(sh := sh)
      else
        var log := wd.log + [Record(w, clock, entries)];
        World(sh, log, Settle(wd, sh, log), if reply == Waiting then wd.waiting[w := |wd.log|] else wd.waiting)
    case Wakes(w, _) =>
      var (sh, reply) := Answer(wd, ev, len);
      World(sh, wd.log, Settle(wd, sh, wd.log), if reply == Waiting then wd.waiting else wd.waiting - {w})
  }

  ghost predicate Run(wd: World, evs: seq<Event>, len: Key -> nat, end: World)
    decreases |evs|
  {
    if evs == [] then end == wd
    else Enabled(wd, evs[0], len) && Run(Step(wd, evs[0], len), evs[1..], len, end)
  }

  // ----- the invariant -----

  function Stored(sh: Shard, k: Key, j: nat): real {
    if k in sh.values && j < |sh.values[k]| then sh.values[k][j] else 0.0
  }

  /** The chosen records' contribution to one coordinate. */
  function Weigh(log: seq<Record>, chosen: set<int>, k: Key, j: nat): real {
    if log == [] then 0.0
    else
      var last := |log| - 1;
      Weigh(log[..last], chosen, k, j) + if last in chosen then Total(log[last].entries, k, j) else 0.0
  }

  ghost predicate Fits(sh: Shard, len: Key -> nat) {
    && (forall k | k in sh.values :: |sh.values[k]| == len(k))
    && (forall s: Slot | Has(sh, s) :: Additive(PendingAt(sh, s), len) && DistinctKeys(PendingAt(sh, s)))
  }

  /** Pending work exists only on a sync shard, for registered sync workers. */
  ghost predicate PendingIsSync(sh: Shard) {
    forall s: Slot | Has(sh, s) :: sh.mode == Sync && ModeOf(sh, s.worker) == Sync && s.worker in sh.workers
  }

  /** The open records of some slots. */
  function Open(log: seq<Record>, settled: set<int>, slots: set<Slot>): set<int> {
    set i | 0 <= i < |log| && i !in settled && SlotOf(log[i]) in slots
  }

  ghost predicate Balanced(wd: World, k: Key, j: nat, initial: real) {
    && Stored(wd.sh, k, j) == initial + Weigh(wd.log, wd.settled, k, j)
    && forall s: Slot | Has(wd.sh, s) ::
         Total(PendingAt(wd.sh, s), k, j) == Weigh(wd.log, Open(wd.log, wd.settled, {s}), k, j)
  }

  ghost predicate OpenIsPending(wd: World) {
    forall i | 0 <= i < |wd.log| && i !in wd.settled :: Has(wd.sh, SlotOf(wd.log[i]))
  }

  ghost predicate WaitersTracked(wd: World) {
    forall w | w in wd.waiting ::
      && wd.waiting[w] < |wd.log|
      && wd.log[wd.waiting[w]].worker == w
      && (wd.waiting[w] in wd.settled ==>
           !Has(wd.sh, SlotOf(wd.log[wd.waiting[w]])) && ClockOf(wd.sh, w) >= wd.log[wd.waiting[w]].clock)
  }

  ghost predicate Invariant(wd: World, len: Key -> nat, initial: (Key, nat) -> real) {
    && Fits(wd.sh, len) && PendingIsSync(wd.sh)
    && OpenIsPending(wd) && WaitersTracked(wd)
    && (forall i | i in wd.settled :: 0 <= i < |wd.log|)
    && forall k: Key, j: nat :: Balanced(wd, k, j, initial(k, j))
  }

  // ----- weights -----

  lemma {:induction false} WeighUnion(log: seq<Record>, a: set<int>, b: set<int>, k: Key, j: nat)
    requires forall i | 0 <= i < |log| :: i !in a || i !in b
    ensures Weigh(log, a + b, k, j) == Weigh(log, a, k, j) + Weigh(log, b, k, j)
  {
    if log != [] {
      WeighUnion(log[..|log| - 1], a, b, k, j);
    }
  }

  lemma {:induction false} WeighSame(log: seq<Record>, a: set<int>, b: set<int>, k: Key, j: nat)
    requires forall i | 0 <= i < |log| :: i in a <==> i in b
    ensures Weigh(log, a, k, j) == Weigh(log, b, k, j)
  {
    if log != [] {
      WeighSame(log[..|log| - 1], a, b, k, j);
    }
  }

  lemma {:induction false} WeighNone(log: seq<Record>, a: set<int>, k: Key, j: nat)
    requires forall i | 0 <= i < |log| :: i !in a
    ensures Weigh(log, a, k, j) == 0.0
  {
    if log != [] {
      WeighNone(log[..|log| - 1], a, k, j);
    }
  }

  lemma WeighAppend(log: seq<Record>, r: Record, chosen: set<int>, k: Key, j: nat)
    ensures Weigh(log + [r], chosen, k, j) ==
            Weigh(log, chosen, k, j) + if |log| in chosen then Total(r.entries, k, j) else 0.0
  {
    assert (log + [r])[..|log|] == log;
  }

  // ----- slots -----

  function SlotsTotal(sh: Shard, slots: seq<Slot>, k: Key, j: nat): real {
    if slots == [] then 0.0 else Total(PendingAt(sh, slots[0]), k, j) + SlotsTotal(sh, slots[1..], k, j)
  }

  ghost predicate DistinctSlots(slots: seq<Slot>) {
    forall i, j | 0 <= i < j < |slots| :: slots[i] != slots[j]
  }

  lemma {:induction false} SlotsTotalFrame(a: Shard, b: Shard, slots: seq<Slot>, k: Key, j: nat)
    requires forall s | s in slots :: PendingAt(a, s) == PendingAt(b, s)
    ensures SlotsTotal(a, slots, k, j) == SlotsTotal(b, slots, k, j)
  {
    if slots != [] {
      SlotsTotalFrame(a, b, slots[1..], k, j);
    }
  }

  /** The pending table of some slots weighs what their open records weigh. */
  lemma {:induction false} SlotsWeigh(wd: World, slots: seq<Slot>, k: Key, j: nat, initial: real)
    requires Balanced(wd, k, j, initial) && DistinctSlots(slots)
    requires forall s | s in slots :: Has(wd.sh, s)
    ensures SlotsTotal(wd.sh, slots, k, j) == Weigh(wd.log, Open(wd.log, wd.settled, set s | s in slots), k, j)
  {
    var all := set s | s in slots;
    if slots == [] {
      WeighNone(wd.log, Open(wd.log, wd.settled, all), k, j);
    } else {
      var rest := set s | s in slots[1..];
      SlotsWeigh(wd, slots[1..], k, j, initial);
      assert slots[0] !in rest;
      var first := Open(wd.log, wd.settled, {slots[0]});
      var others := Open(wd.log, wd.settled, rest);
      assert slots[0] in slots;
      WeighUnion(wd.log, first, others, k, j);
      WeighSame(wd.log, first + others, Open(wd.log, wd.settled, all), k, j);
    }
  }

  // ----- effects of applying, popping and flushing -----

  ghost predicate SameButValues(a: Shard, b: Shard) {
    a.mode == b.mode && a.workers == b.workers && a.workerModes == b.workerModes &&
    a.pending == b.pending && a.appliedClock == b.appliedClock
  }

  lemma {:induction false} ApplyEffect(sh: Shard, es: seq<Entry>, len: Key -> nat)
    requires Additive(es, len) && forall k | k in sh.values :: |sh.values[k]| == len(k)
    ensures var done := Apply(sh, es);
      && done.ok && SameButValues(sh, done.shard)
      && (forall k | k in done.shard.values :: |done.shard.values[k]| == len(k))
      && (forall k: Key, j: nat :: Stored(done.shard, k, j) == Stored(sh, k, j) + Total(es, k, j))
    decreases |es|
  {
    if es != [] {
      var next := ApplyOne(sh, es[0]);
      ApplyEffect(next, es[1..], len);
      forall k: Key, j: nat ensures Stored(next, k, j) == Stored(sh, k, j) + Share(es[0], k, j) {
      }
    }
  }

  ghost predicate SlotsGone(a: Shard, b: Shard, slots: seq<Slot>) {
    forall s: Slot :: (Has(b, s) <==> Has(a, s) && s !in slots) && (Has(b, s) ==> PendingAt(b, s) == PendingAt(a, s))
  }

  ghost predicate Flushed(a: Shard, b: Shard, slots: seq<Slot>) {
    && SlotsGone(a, b, slots)
    && b.mode == a.mode && b.workers == a.workers && b.workerModes == a.workerModes
    && (forall w: Id :: ClockOf(b, w) >= ClockOf(a, w))
    && (forall s | s in slots :: ClockOf(b, s.worker) >= s.clock)
  }

  lemma PopFits(sh: Shard, s: Slot, len: Key -> nat)
    requires Fits(sh, len) && Has(sh, s)
    ensures Fits(Pop(sh, s), len) && SlotsGone(sh, Pop(sh, s), [s])
  {
    var popped := Pop(sh, s);
    forall t: Slot
      ensures (Has(popped, t) <==> Has(sh, t) && t !in [s]) && (Has(popped, t) ==> PendingAt(popped, t) == PendingAt(sh, t))
    {
    }
  }

  lemma FlushOne(sh: Shard, s: Slot, len: Key -> nat)
    requires Fits(sh, len) && Has(sh, s)
    ensures var done := Apply(Pop(sh, s), PendingAt(sh, s));
      var next := Advance(done.shard, s.worker, s.clock);
      && done.ok && Fits(next, len) && Flushed(sh, next, [s])
      && (forall k: Key, j: nat :: Stored(next, k, j) == Stored(sh, k, j) + Total(PendingAt(sh, s), k, j))
  {
    PopFits(sh, s, len);
    ApplyEffect(Pop(sh, s), PendingAt(sh, s), len);
    var popped, done := Pop(sh, s), Apply(Pop(sh, s), PendingAt(sh, s));
    assert SameButPending(popped, sh);
    hide Apply, Total, Pop;
    AdvancedFits(popped, done.shard, s, len);
    var next := Advance(done.shard, s.worker, s.clock);
    forall k: Key, j: nat ensures Stored(next, k, j) == Stored(sh, k, j) + Total(PendingAt(sh, s), k, j) {
      assert Stored(popped, k, j) == Stored(sh, k, j) && Stored(next, k, j) == Stored(done.shard, k, j);
    }
    hide Fits, Has, PendingAt, Stored;
  }

  lemma AdvancedFits(popped: Shard, done: Shard, s: Slot, len: Key -> nat)
    requires Fits(popped, len) && SameButValues(popped, done)
    requires forall k | k in done.values :: |done.values[k]| == len(k)
    ensures var next := Advance(done, s.worker, s.clock);
      && Fits(next, len) && (forall t: Slot :: Has(next, t) == Has(popped, t) && PendingAt(next, t) == PendingAt(popped, t))
      && (forall w: Id :: ClockOf(next, w) >= ClockOf(popped, w)) && ClockOf(next, s.worker) >= s.clock
  {
    var next := Advance(done, s.worker, s.clock);
    forall t: Slot ensures Has(next, t) == Has(popped, t) && PendingAt(next, t) == PendingAt(popped, t) {
    }
  }

  lemma FlushedTrans(a: Shard, b: Shard, c: Shard, s: Slot, rest: seq<Slot>)
    requires Flushed(a, b, [s]) && Flushed(b, c, rest)
    ensures Flushed(a, c, [s] + rest)
  {
    forall t: Slot ensures (Has(c, t) <==> Has(a, t) && t !in [s] + rest) {
      assert t in [s] + rest <==> t == s || t in rest;
    }
    forall t | t in [s] + rest ensures ClockOf(c, t.worker) >= t.clock {
      if t == s {
        assert ClockOf(b, s.worker) >= s.clock by { assert s in [s]; }
      }
    }
  }

  lemma {:induction false} FlushEffect(sh: Shard, slots: seq<Slot>, len: Key -> nat)
    requires Fits(sh, len) && DistinctSlots(slots) && forall s | s in slots :: Has(sh, s)
    ensures var done := Flush(sh, slots);
      && done.ok && Fits(done.shard, len) && Flushed(sh, done.shard, slots)
      && (forall k: Key, j: nat :: Stored(done.shard, k, j) == Stored(sh, k, j) + SlotsTotal(sh, slots, k, j))
    decreases |slots|
  {
    if slots != [] {
      var s, rest := slots[0], slots[1..];
      FlushOne(sh, s, len);
      var next := Advance(Apply(Pop(sh, s), PendingAt(sh, s)).shard, s.worker, s.clock);
      forall t | t in rest ensures Has(next, t) && PendingAt(next, t) == PendingAt(sh, t) {
        assert t in slots && t != s;
      }
      FlushEffect(next, rest, len);
      FlushedTrans(sh, next, Flush(next, rest).shard, s, rest);
      assert slots == [s] + rest;
      forall k: Key, j: nat ensures SlotsTotal(next, rest, k, j) == SlotsTotal(sh, rest, k, j) {
        SlotsTotalFrame(next, sh, rest, k, j);
      }
    }
  }

  function AtClock(ws: seq<Id>, clock: int): seq<Slot> {
    seq(|ws|, i requires 0 <= i < |ws| => Slot(ws[i], clock))
  }

  ghost predicate SameButPending(a: Shard, b: Shard) {
    a == b.(pending := a.pending)
  }

  lemma {:induction false} PopAllEffect(sh: Shard, ws: seq<Id>, clock: int, len: Key -> nat)
    requires Fits(sh, len) && Increasing(ws)
    requires forall w | w in ws :: Has(sh, Slot(w, clock))
    ensures var (popped, grouped) := PopAll(sh, ws, clock);
      && SameButPending(popped, sh) && SlotsGone(sh, popped, AtClock(ws, clock)) && Additive(grouped, len)
      && (forall k: Key, j: nat :: Total(grouped, k, j) == SlotsTotal(sh, AtClock(ws, clock), k, j))
    decreases |ws|
  {
    if ws != [] {
      var s, rest := Slot(ws[0], clock), AtClock(ws[1..], clock);
      var next := Pop(sh, s);
      assert ws[0] in ws && AtClock(ws, clock) == [s] + rest;
      PopFits(sh, s, len);
      forall w | w in ws[1..] ensures Has(next, Slot(w, clock)) && PendingAt(next, Slot(w, clock)) == PendingAt(sh, Slot(w, clock)) {
        assert w in ws && w != ws[0];
      }
      PopAllEffect(next, ws[1..], clock, len);
      var (popped, later) := PopAll(next, ws[1..], clock);
      forall t: Slot ensures (Has(popped, t) <==> Has(sh, t) && t !in AtClock(ws, clock)) {
        assert t in [s] + rest <==> t == s || t in rest;
      }
      forall k: Key, j: nat ensures Total(PendingAt(sh, s) + later, k, j) == SlotsTotal(sh, AtClock(ws, clock), k, j) {
        TotalConcat(PendingAt(sh, s), later, k, j);
        SlotsTotalFrame(next, sh, rest, k, j);
        assert ([s] + rest)[1..] == rest;
      }
    }
  }

  // ----- the flush visits every pending slot once -----

  lemma {:induction false} SlotsFromComplete(sh: Shard, ws: seq<Id>)
    requires Increasing(ws)
    ensures DistinctSlots(SlotsFrom(sh, ws))
    ensures forall s: Slot :: s in SlotsFrom(sh, ws) <==> s.worker in ws && Has(sh, s)
    decreases |ws|
  {
    if ws != [] {
      var clocks := Sorted(PendingOf(sh, ws[0]).Keys);
      var first, rest := SlotsOf(ws[0], clocks), SlotsFrom(sh, ws[1..]);
      hide Sorted;
      SlotsFromComplete(sh, ws[1..]);
      forall s: Slot ensures s in first <==> s.worker == ws[0] && Has(sh, s) {
        if s.worker == ws[0] && Has(sh, s) {
          assert s.clock in clocks;
          var i :| 0 <= i < |clocks| && clocks[i] == s.clock;
          assert first[i] == s;
        }
      }
      assert ws[0] !in ws[1..];
      forall s: Slot ensures s in first + rest <==> s.worker in ws && Has(sh, s) {
        assert s.worker in ws <==> s.worker == ws[0] || s.worker in ws[1..];
      }
      forall i, j | 0 <= i < j < |first + rest| ensures (first + rest)[i] != (first + rest)[j] {
        if i < |first| <= j {
          assert (first + rest)[i] in first && (first + rest)[j] in rest;
        }
      }
    }
  }

  lemma AllSlotsComplete(sh: Shard)
    ensures DistinctSlots(AllSlots(sh))
    ensures forall s: Slot :: s in AllSlots(sh) <==> Has(sh, s)
  {
    SlotsFromComplete(sh, Sorted(sh.pending.Keys));
  }

  // ----- the invariant survives every step -----

  /** A step of the shard alone: some pending slots are applied, nothing else moves. */
  ghost predicate Moved(a: Shard, b: Shard, slots: seq<Slot>, len: Key -> nat) {
    && Fits(b, len) && PendingIsSync(b)
    && DistinctSlots(slots) && (forall s | s in slots :: Has(a, s))
    && SlotsGone(a, b, slots)
    && (forall w: Id :: ClockOf(b, w) >= ClockOf(a, w))
    && (forall s | s in slots :: ClockOf(b, s.worker) >= s.clock)
    && (forall k: Key, j: nat :: Stored(b, k, j) == Stored(a, k, j) + SlotsTotal(a, slots, k, j))
  }

  lemma Rebalance(wd: World, sh: Shard, slots: seq<Slot>, len: Key -> nat, initial: (Key, nat) -> real)
    requires Invariant(wd, len, initial) && Moved(wd.sh, sh, slots, len)
    ensures Invariant(wd.(sh := sh, settled := Settle(wd, sh, wd.log)), len, initial)
  {
    var settled := Settle(wd, sh, wd.log);
    var moved := Open(wd.log, wd.settled, set s | s in slots);
    assert forall i | 0 <= i < |wd.log| :: i in settled <==> i in wd.settled + moved;
    forall k: Key, j: nat ensures Balanced(wd.(sh := sh, settled := settled), k, j, initial(k, j)) {
      assert Balanced(wd, k, j, initial(k, j));
      SlotsWeigh(wd, slots, k, j, initial(k, j));
      WeighUnion(wd.log, wd.settled, moved, k, j);
      WeighSame(wd.log, settled, wd.settled + moved, k, j);
      forall s: Slot | Has(sh, s)
        ensures Total(PendingAt(sh, s), k, j) == Weigh(wd.log, Open(wd.log, settled, {s}), k, j)
      {
        WeighSame(wd.log, Open(wd.log, settled, {s}), Open(wd.log, wd.settled, {s}), k, j);
      }
    }
  }

  lemma SameMoved(sh: Shard, len: Key -> nat)
    requires Fits(sh, len) && PendingIsSync(sh)
    ensures Moved(sh, sh, [], len)
  {
  }

  /** Two shards that differ only in what a flush or a barrier touches. */
  lemma MovedBy(a: Shard, b: Shard, slots: seq<Slot>, len: Key -> nat)
    requires Fits(a, len) && PendingIsSync(a)
    requires DistinctSlots(slots) && forall s | s in slots :: Has(a, s)
    requires SlotsGone(a, b, slots)
    requires b.workers == a.workers
    requires (b.mode == a.mode && b.workerModes == a.workerModes) || forall s: Slot | Has(a, s) :: s in slots
    requires forall k | k in b.values :: |b.values[k]| == len(k)
    requires forall w: Id :: ClockOf(b, w) >= ClockOf(a, w)
    requires forall s | s in slots :: ClockOf(b, s.worker) >= s.clock
    requires forall k: Key, j: nat :: Stored(b, k, j) == Stored(a, k, j) + SlotsTotal(a, slots, k, j)
    ensures Moved(a, b, slots, len)
  {
  }

  lemma BarrierApplies(sh: Shard, clock: int, len: Key -> nat) returns (popped: Shard, done: Shard)
    requires Fits(sh, len) && Ready(sh, clock)
    ensures var slots := AtClock(SyncOnly(sh, Sorted(sh.workers)), clock);
      && Barrier(sh, clock).0 == AdvanceAll(done, SyncWorkers(sh), clock) && Barrier(sh, clock).1.Applied?
      && SameButPending(popped, sh) && SameButValues(popped, done) && SlotsGone(sh, popped, slots)
      && (forall k | k in done.values :: |done.values[k]| == len(k))
      && (forall k: Key, j: nat :: Stored(done, k, j) == Stored(sh, k, j) + SlotsTotal(sh, slots, k, j))
  {
    var ws := SyncOnly(sh, Sorted(sh.workers));
    SyncOnlyIncreasing(sh, Sorted(sh.workers));
    hide Sorted, SyncOnly;
    assert forall w :: w in ws <==> w in SyncWorkers(sh);
    PopAllEffect(sh, ws, clock, len);
    popped := PopAll(sh, ws, clock).0;
    var grouped := PopAll(sh, ws, clock).1;
    hide PopAll;
    MergeFromKeepsTotals([], grouped, len);
    var es := Merge(grouped).entries;
    hide MergeFrom;
    ApplyEffect(popped, es, len);
    done := Apply(popped, es).shard;
    hide Apply;
    forall k: Key, j: nat ensures Stored(popped, k, j) == Stored(sh, k, j) {
    }
  }

  lemma BarrierMoved(sh: Shard, clock: int, len: Key -> nat)
    requires Fits(sh, len) && PendingIsSync(sh) && Ready(sh, clock)
    ensures var (next, reply) := Barrier(sh, clock);
      && reply.Applied?
      && Moved(sh, next, AtClock(SyncOnly(sh, Sorted(sh.workers)), clock), len)
  {
    var ws := SyncOnly(sh, Sorted(sh.workers));
    SyncOnlyIncreasing(sh, Sorted(sh.workers));
    var popped, done := BarrierApplies(sh, clock, len);
    AdvanceMoved(sh, popped, done, ws, clock, len);
  }

  lemma AdvanceMoved(sh: Shard, popped: Shard, done: Shard, ws: seq<Id>, clock: int, len: Key -> nat)
    requires Fits(sh, len) && PendingIsSync(sh) && Ready(sh, clock)
    requires Increasing(ws) && forall w :: w in ws <==> w in SyncWorkers(sh)
    requires SameButPending(popped, sh) && SameButValues(popped, done) && SlotsGone(sh, popped, AtClock(ws, clock))
    requires forall k | k in done.values :: |done.values[k]| == len(k)
    requires forall k: Key, j: nat :: Stored(done, k, j) == Stored(sh, k, j) + SlotsTotal(sh, AtClock(ws, clock), k, j)
    ensures Moved(sh, AdvanceAll(done, SyncWorkers(sh), clock), AtClock(ws, clock), len)
  {
    var slots := AtClock(ws, clock);
    var next := AdvanceAll(done, SyncWorkers(sh), clock);
    AdvancedSlots(sh, popped, done, clock);
    AdvancedData(sh, done, clock);
    hide Total, SlotsTotal, AdvanceAll, Has, PendingAt, Stored;
    forall s | s in slots ensures Has(sh, s) && ClockOf(next, s.worker) >= s.clock {
      assert s.worker in ws;
      assert s.worker in SyncWorkers(sh);
    }
    MovedBy(sh, next, slots, len);
  }

  lemma AdvancedSlots(sh: Shard, popped: Shard, done: Shard, clock: int)
    requires SameButValues(popped, done)
    ensures var next := AdvanceAll(done, SyncWorkers(sh), clock);
      forall s: Slot :: Has(next, s) == Has(popped, s) && PendingAt(next, s) == PendingAt(popped, s)
  {
    hide SyncWorkers;
  }

  lemma AdvancedData(sh: Shard, done: Shard, clock: int)
    requires done.appliedClock == sh.appliedClock
    ensures var next := AdvanceAll(done, SyncWorkers(sh), clock);
      && next == done.(appliedClock := next.appliedClock)
      && (forall k: Key, j: nat :: Stored(next, k, j) == Stored(done, k, j))
      && (forall w: Id :: ClockOf(next, w) >= ClockOf(sh, w))
      && (forall w | w in SyncWorkers(sh) :: ClockOf(next, w) >= clock)
  {
    hide SyncWorkers;
  }

  lemma {:induction false} SyncOnlyIncreasing(sh: Shard, ws: seq<Id>)
    requires Increasing(ws)
    ensures Increasing(SyncOnly(sh, ws))
  {
    if ws != [] {
      SyncOnlyIncreasing(sh, ws[1..]);
      var rest := SyncOnly(sh, ws[1..]);
      forall i | 0 <= i < |rest| ensures ws[0] < rest[i] {
        assert rest[i] in rest;
        assert rest[i] in ws[1..];
      }
    }
  }

  /** One pass of a worker whose update is pending or already applied. */
  lemma PassMoved(sh: Shard, w: Id, clock: int, expired: bool, len: Key -> nat) returns (slots: seq<Slot>)
    requires Fits(sh, len) && PendingIsSync(sh)
    requires Has(sh, Slot(w, clock)) || ClockOf(sh, w) >= clock
    ensures var (next, reply) := Pass(sh, w, clock, expired);
      && Moved(sh, next, slots, len)
      && (reply.Applied? || reply.Joined? || reply.Switched? ==> !Has(next, Slot(w, clock)))
      && (reply == Waiting || reply.Failed? ==> next == sh && Has(sh, Slot(w, clock)))
      && (reply.Failed? ==> reply == Failed(BarrierTimeout) && expired)
      && !reply.Registered?
  {
    slots := [];
    if sh.mode == Sync && Has(sh, Slot(w, clock)) && Ready(sh, clock) {
      slots := FullPassMoved(sh, w, clock, expired, len);
    } else {
      SameMoved(sh, len);
    }
  }

  lemma FullPassMoved(sh: Shard, w: Id, clock: int, expired: bool, len: Key -> nat) returns (slots: seq<Slot>)
    requires Fits(sh, len) && PendingIsSync(sh) && sh.mode == Sync && Has(sh, Slot(w, clock)) && Ready(sh, clock)
    ensures var (next, reply) := Pass(sh, w, clock, expired);
      Moved(sh, next, slots, len) && reply.Applied? && !Has(next, Slot(w, clock))
  {
    var ws := SyncOnly(sh, Sorted(sh.workers));
    slots := AtClock(ws, clock);
    assert w in ws;
    assert Pass(sh, w, clock, expired) == Barrier(sh, clock);
    BarrierMoved(sh, clock, len);
    var i :| 0 <= i < |ws| && ws[i] == w;
    hide SyncOnly, Sorted, Barrier, Pass, Ready;
    assert slots[i] == Slot(w, clock);
  }

  lemma SetModeMoved(sh: Shard, mode: Mode, w: Id, len: Key -> nat) returns (slots: seq<Slot>)
    requires Fits(sh, len) && PendingIsSync(sh)
    ensures Moved(sh, SetMode(sh, mode, w).0, slots, len) && !SetMode(sh, mode, w).1.ModeFailed?
  {
    if mode != sh.mode && mode == Async {
      slots := FlushMoved(sh, w, len);
    } else {
      slots := [];
      DeclareMoved(sh, SetMode(sh, mode, w).0, len);
    }
  }

  lemma DeclareMoved(sh: Shard, next: Shard, len: Key -> nat)
    requires Fits(sh, len) && PendingIsSync(sh)
    requires next == sh.(mode := next.mode, workerModes := next.workerModes)
    requires forall s: Slot | Has(sh, s) :: next.mode == Sync && ModeOf(next, s.worker) == Sync
    ensures Moved(sh, next, [], len)
  {
    hide Total;
    forall s: Slot ensures Has(next, s) == Has(sh, s) && PendingAt(next, s) == PendingAt(sh, s) {
    }
  }

  lemma FlushMoved(sh: Shard, w: Id, len: Key -> nat) returns (slots: seq<Slot>)
    requires Fits(sh, len) && PendingIsSync(sh) && sh.mode == Sync
    ensures Moved(sh, SetMode(sh, Async, w).0, slots, len) && !SetMode(sh, Async, w).1.ModeFailed?
  {
    var declared := sh.(mode := Async, workerModes := Declare(sh, Async, w));
    slots := AllSlots(declared);
    var done := Flush(declared, slots);
    assert SetMode(sh, Async, w).0 == done.shard && (done.ok ==> SetMode(sh, Async, w).1.Changed?);
    hide *;
    AllSlotsComplete(declared);
    assert Fits(declared, len) by { DeclaredFits(sh, declared, len); }
    FlushEffect(declared, slots, len);
    DeclaredMoved(sh, declared, done.shard, slots, len);
  }

  lemma DeclaredFits(sh: Shard, declared: Shard, len: Key -> nat)
    requires Fits(sh, len) && declared == sh.(mode := declared.mode, workerModes := declared.workerModes)
    ensures Fits(declared, len)
  {
    forall s: Slot ensures Has(declared, s) == Has(sh, s) && PendingAt(declared, s) == PendingAt(sh, s) {
    }
  }

  lemma DeclaredMoved(sh: Shard, declared: Shard, next: Shard, slots: seq<Slot>, len: Key -> nat)
    requires Fits(sh, len) && PendingIsSync(sh)
    requires declared == sh.(mode := declared.mode, workerModes := declared.workerModes)
    requires DistinctSlots(slots) && forall s: Slot :: s in slots <==> Has(declared, s)
    requires Fits(next, len) && Flushed(declared, next, slots)
    requires forall k: Key, j: nat :: Stored(next, k, j) == Stored(declared, k, j) + SlotsTotal(declared, slots, k, j)
    ensures Moved(sh, next, slots, len)
  {
    hide Total, SlotsTotal;
    forall s: Slot ensures Has(declared, s) == Has(sh, s) && PendingAt(declared, s) == PendingAt(sh, s) {
    }
    forall k: Key, j: nat ensures Stored(next, k, j) == Stored(sh, k, j) + SlotsTotal(sh, slots, k, j) {
      SlotsTotalFrame(declared, sh, slots, k, j);
    }
    forall v: Id ensures ClockOf(declared, v) == ClockOf(sh, v) {
    }
    MovedBy(sh, next, slots, len);
  }

  lemma EnrollKeeps(wd: World, w: Id, len: Key -> nat, initial: (Key, nat) -> real)
    requires Invariant(wd, len, initial)
    ensures Invariant(wd.(sh := Enroll(wd.sh, w)), len, initial)
  {
    var sh := Enroll(wd.sh, w);
    assert forall s: Slot :: Has(sh, s) == Has(wd.sh, s) && PendingAt(sh, s) == PendingAt(wd.sh, s);
    forall k: Key, j: nat ensures Balanced(wd.(sh := sh), k, j, initial(k, j)) {
      assert Balanced(wd, k, j, initial(k, j));
    }
  }

  /** Adding a push to its slot opens a new record of the same weight. */
  lemma OpenKeeps(wd: World, w: Id, clock: int, entries: seq<Entry>, current: seq<Entry>, len: Key -> nat,
                  initial: (Key, nat) -> real)
    requires Invariant(wd, len, initial) && w !in wd.waiting
    requires wd.sh.mode == Sync && ModeOf(wd.sh, w) == Sync && w in wd.sh.workers
    requires Additive(entries, len) && Additive(current, len) && DistinctKeys(current)
    requires forall k: Key, j: nat ::
      Total(current, k, j) == Total(PendingAt(wd.sh, Slot(w, clock)), k, j) + Total(entries, k, j)
    ensures var sh := Opened(wd.sh, w, clock, current);
      Invariant(World(sh, wd.log + [Record(w, clock, entries)], wd.settled, wd.waiting), len, initial)
      && Has(sh, Slot(w, clock))
  {
    var s := Slot(w, clock);
    var sh := Opened(wd.sh, w, clock, current);
    var r := Record(w, clock, entries);
    var next := World(sh, wd.log + [r], wd.settled, wd.waiting);
    assert forall t: Slot | t != s :: Has(sh, t) == Has(wd.sh, t) && PendingAt(sh, t) == PendingAt(wd.sh, t);
    assert PendingAt(sh, s) == current;
    forall k: Key, j: nat ensures Balanced(next, k, j, initial(k, j)) {
      assert Balanced(wd, k, j, initial(k, j));
      WeighAppend(wd.log, r, wd.settled, k, j);
      forall t: Slot | Has(sh, t)
        ensures Total(PendingAt(sh, t), k, j) == Weigh(next.log, Open(next.log, wd.settled, {t}), k, j)
      {
        var before, after := Open(wd.log, wd.settled, {t}), Open(next.log, wd.settled, {t});
        WeighAppend(wd.log, r, after, k, j);
        WeighSame(wd.log, before, after, k, j);
        if t == s && !Has(wd.sh, s) {
          WeighNone(wd.log, before, k, j);
        }
      }
    }
  }

  /** A record that is settled at once adds its weight to the stored values. */
  lemma BalancedAppend(wd: World, sh: Shard, r: Record, settled: set<int>, k: Key, j: nat, initial: real)
    requires Balanced(wd, k, j, initial)
    requires forall i | 0 <= i < |wd.log| :: i in settled <==> i in wd.settled
    requires |wd.log| in settled
    requires forall t: Slot :: Has(sh, t) == Has(wd.sh, t) && PendingAt(sh, t) == PendingAt(wd.sh, t)
    requires Stored(sh, k, j) == Stored(wd.sh, k, j) + Total(r.entries, k, j)
    ensures Balanced(World(sh, wd.log + [r], settled, wd.waiting), k, j, initial)
  {
    var log := wd.log + [r];
    WeighAppend(wd.log, r, settled, k, j);
    WeighSame(wd.log, wd.settled, settled, k, j);
    forall t: Slot | Has(sh, t)
      ensures Total(PendingAt(sh, t), k, j) == Weigh(log, Open(log, settled, {t}), k, j)
    {
      var before, after := Open(wd.log, wd.settled, {t}), Open(log, settled, {t});
      WeighAppend(wd.log, r, after, k, j);
      WeighSame(wd.log, before, after, k, j);
    }
  }

  lemma PushNowKeeps(wd: World, w: Id, clock: int, entries: seq<Entry>, normalized: seq<Entry>, len: Key -> nat,
                     initial: (Key, nat) -> real)
    requires Invariant(wd, len, initial) && w !in wd.waiting
    requires wd.sh.mode == Async || ModeOf(wd.sh, w) == Async
    requires Additive(entries, len) && Additive(normalized, len)
    requires forall k: Key, j: nat :: Total(normalized, k, j) == Total(entries, k, j)
    ensures var (sh, reply) := PushNow(wd.sh, w, clock, normalized);
      var log := wd.log + [Record(w, clock, entries)];
      && reply.Applied? && !Has(sh, Slot(w, clock))
      && Invariant(World(sh, log, Settle(wd, sh, log), wd.waiting), len, initial)
  {
    ApplyEffect(wd.sh, normalized, len);
    var done := Apply(wd.sh, normalized).shard;
    hide Apply, Total;
    var sh := PushNow(wd.sh, w, clock, normalized).0;
    forall k: Key, j: nat ensures Stored(sh, k, j) == Stored(done, k, j) {
    }
    AdvancedKeeps(wd, sh, Record(w, clock, entries), len, initial);
  }

  lemma AdvancedKeeps(wd: World, sh: Shard, r: Record, len: Key -> nat, initial: (Key, nat) -> real)
    requires Invariant(wd, len, initial)
    requires SameButValues(wd.sh, sh.(appliedClock := wd.sh.appliedClock))
    requires forall w: Id :: ClockOf(sh, w) >= ClockOf(wd.sh, w)
    requires !Has(wd.sh, SlotOf(r)) && forall k | k in sh.values :: |sh.values[k]| == len(k)
    requires forall k: Key, j: nat :: Stored(sh, k, j) == Stored(wd.sh, k, j) + Total(r.entries, k, j)
    ensures var log := wd.log + [r]; Invariant(World(sh, log, Settle(wd, sh, log), wd.waiting), len, initial)
  {
    hide Total, Weigh;
    var log := wd.log + [r];
    var next := World(sh, log, Settle(wd, sh, log), wd.waiting);
    forall t: Slot ensures Has(sh, t) == Has(wd.sh, t) && PendingAt(sh, t) == PendingAt(wd.sh, t) {
    }
    assert |wd.log| in next.settled by { assert log[|wd.log|] == r; }
    forall k: Key, j: nat ensures Balanced(next, k, j, initial(k, j)) {
      assert Balanced(wd, k, j, initial(k, j));
      BalancedAppend(wd, sh, r, next.settled, k, j, initial(k, j));
    }
  }

  // ----- main results -----

  function Start(mode: Mode, initial: map<Key, seq<real>>): World {
    World(New(mode, initial), [], {}, map[])
  }

  lemma StartInvariant(mode: Mode, initial: map<Key, seq<real>>, len: Key -> nat)
    requires forall k | k in initial :: |initial[k]| == len(k)
    ensures Invariant(Start(mode, initial), len, (k: Key, j: nat) => Stored(New(mode, initial), k, j))
  {
  }

  /** The world a push reaches before its first pass through the barrier loop. */
  lemma PushOpens(wd: World, w: Id, clock: int, entries: seq<Entry>, expired: bool, len: Key -> nat,
                  initial: (Key, nat) -> real) returns (begun: World)
    requires Invariant(wd, len, initial) && w !in wd.waiting && Additive(entries, len)
    requires w != 0 && clock >= 0
    requires var known := if w in wd.sh.workers then wd.sh else Enroll(wd.sh, w);
      known.mode == Sync && ModeOf(known, w) == Sync
    ensures Invariant(begun, len, initial) && Has(begun.sh, Slot(w, clock))
    ensures begun.log == wd.log + [Record(w, clock, entries)]
    ensures begun.settled == wd.settled && begun.waiting == wd.waiting
    ensures Push(wd.sh, w, clock, entries, expired) == Pass(begun.sh, w, clock, expired)
  {
    MergeFromKeepsTotals([], entries, len);
    var normalized := Merge(entries).entries;
    var known := if w in wd.sh.workers then wd.sh else Enroll(wd.sh, w);
    EnrollKeeps(wd, w, len, initial);
    var before := PendingAt(known, Slot(w, clock));
    MergeFromKeepsTotals(before, normalized, len);
    var current := MergeFrom(before, normalized).entries;
    PushUnfolds(wd.sh, w, clock, entries, normalized, current, expired);
    hide Push, Pass, MergeFrom;
    OpenKeeps(wd.(sh := known), w, clock, entries, current, len, initial);
    begun := World(Opened(known, w, clock, current), wd.log + [Record(w, clock, entries)], wd.settled, wd.waiting);
  }

  function Opened(sh: Shard, w: Id, clock: int, current: seq<Entry>): Shard {
    sh.(pending := sh.pending[w := PendingOf(sh, w)[clock := current]])
  }

  lemma PushUnfolds(sh: Shard, w: Id, clock: int, entries: seq<Entry>, normalized: seq<Entry>, current: seq<Entry>, expired: bool)
    requires w != 0 && clock >= 0 && Merge(entries) == Merged(normalized)
    requires var known := if w in sh.workers then sh else Enroll(sh, w);
      && known.mode == Sync && ModeOf(known, w) == Sync
      && MergeFrom(PendingAt(known, Slot(w, clock)), normalized) == Merged(current)
    ensures Push(sh, w, clock, entries, expired) ==
      Pass(Opened(if w in sh.workers then sh else Enroll(sh, w), w, clock, current), w, clock, expired)
  {
    var known := if w in sh.workers then sh else Enroll(sh, w);
    hide MergeFrom, Pass;
    var ready := known.(pending := known.pending[w := PendingOf(known, w)]);
    assert PendingAt(ready, Slot(w, clock)) == PendingAt(known, Slot(w, clock));
    assert ready.(pending := ready.pending[w := ready.pending[w][clock := current]]) == Opened(known, w, clock, current);
  }

  /** Every accepted push and every wake-up answers for one record of the ledger. */
  function AnsweredRecord(wd: World, ev: Event): int
    requires ev.Wakes? ==> ev.w in wd.waiting
  {
    if ev.Wakes? then wd.waiting[ev.w] else |wd.log|
  }

  ghost predicate Succeeds(r: Reply) { r.Applied? || r.Joined? || r.Switched? }

  /** What one step guarantees; Kept is the invariant of the world it leads to. */
  ghost predicate StepSound(wd: World, ev: Event, len: Key -> nat, initial: (Key, nat) -> real)
    requires Enabled(wd, ev, len)
  {
    var next := Step(wd, ev, len);
    && Invariant(next, len, initial)
    && wd.settled <= next.settled && wd.log <= next.log
    && ((ev.Pushes? || ev.Wakes?) && !Refused(Answer(wd, ev, len).1) ==>
          var reply := Answer(wd, ev, len).1;
          && (Succeeds(reply) <==> AnsweredRecord(wd, ev) in next.settled)
          && (!Succeeds(reply) ==> reply == Waiting || (reply == Failed(BarrierTimeout) && ev.expired)))
  }

  lemma StepIsSound(wd: World, ev: Event, len: Key -> nat, initial: (Key, nat) -> real)
    requires Invariant(wd, len, initial) && Enabled(wd, ev, len)
    ensures StepSound(wd, ev, len, initial)
  {
    match ev
    case Registers(w) => if w != 0 { EnrollKeeps(wd, w, len, initial); }
    case Switches(mode, w) =>
      var slots := SetModeMoved(wd.sh, mode, w, len);
      Rebalance(wd, SetMode(wd.sh, mode, w).0, slots, len, initial);
    case Wakes(w, expired) => WakeIsSound(wd, w, expired, len, initial);
    case Pushes(w, clock, entries, expired) =>
      if w != 0 && clock >= 0 { PushIsSound(wd, w, clock, entries, expired, len, initial); }
  }

  /** Moving pending work keeps the invariant and settles exactly what left the table. */
  lemma ShardStep(wd: World, sh: Shard, slots: seq<Slot>, waiting: map<Id, nat>, i: nat, len: Key -> nat,
                  initial: (Key, nat) -> real)
    requires Invariant(wd, len, initial) && Moved(wd.sh, sh, slots, len) && i < |wd.log|
    requires forall w | w in waiting :: if w in wd.waiting then waiting[w] == wd.waiting[w]
                                        else waiting[w] == i && wd.log[i].worker == w && Has(sh, SlotOf(wd.log[i]))
    requires i in wd.settled ==> !Has(sh, SlotOf(wd.log[i]))
    ensures Invariant(World(sh, wd.log, Settle(wd, sh, wd.log), waiting), len, initial)
    ensures i in Settle(wd, sh, wd.log) <==> !Has(sh, SlotOf(wd.log[i]))
    ensures wd.settled <= Settle(wd, sh, wd.log)
  {
    Rebalance(wd, sh, slots, len, initial);
    hide Moved, Has, Fits, PendingIsSync;
    var kept := World(sh, wd.log, Settle(wd, sh, wd.log), wd.waiting);
    forall k: Key, j: nat ensures Balanced(kept.(waiting := waiting), k, j, initial(k, j)) {
      assert Balanced(kept, k, j, initial(k, j));
    }
  }

  lemma WakeIsSound(wd: World, w: Id, expired: bool, len: Key -> nat, initial: (Key, nat) -> real)
    requires Invariant(wd, len, initial) && Enabled(wd, Wakes(w, expired), len)
    ensures StepSound(wd, Wakes(w, expired), len, initial)
  {
    var i := wd.waiting[w];
    var r := wd.log[i];
    assert i !in wd.settled ==> Has(wd.sh, SlotOf(r));
    var slots := PassMoved(wd.sh, w, r.clock, expired, len);
    var (sh, reply) := Pass(wd.sh, w, r.clock, expired);
    assert i in wd.settled ==> !Has(sh, SlotOf(r));
    assert Succeeds(reply) <==> !Has(sh, SlotOf(r));
    hide Pass, Has, Invariant, Moved;
    ShardStep(wd, sh, slots, if reply == Waiting then wd.waiting else wd.waiting - {w}, i, len, initial);
  }

  lemma PushIsSound(wd: World, w: Id, clock: int, entries: seq<Entry>, expired: bool, len: Key -> nat,
                    initial: (Key, nat) -> real)
    requires Invariant(wd, len, initial) && Enabled(wd, Pushes(w, clock, entries, expired), len)
    requires w != 0 && clock >= 0
    ensures StepSound(wd, Pushes(w, clock, entries, expired), len, initial)
  {
    var known := if w in wd.sh.workers then wd.sh else Enroll(wd.sh, w);
    if known.mode == Async || ModeOf(known, w) == Async {
      AsyncPushIsSound(wd, w, clock, entries, expired, len, initial);
    } else {
      SyncPushIsSound(wd, w, clock, entries, expired, len, initial);
    }
  }

  lemma SyncPushIsSound(wd: World, w: Id, clock: int, entries: seq<Entry>, expired: bool, len: Key -> nat,
                        initial: (Key, nat) -> real)
    requires Invariant(wd, len, initial) && Enabled(wd, Pushes(w, clock, entries, expired), len)
    requires w != 0 && clock >= 0
    requires var known := if w in wd.sh.workers then wd.sh else Enroll(wd.sh, w);
      known.mode == Sync && ModeOf(known, w) == Sync
    ensures StepSound(wd, Pushes(w, clock, entries, expired), len, initial)
  {
    var i := |wd.log|;
    hide Push, Enroll, Additive, Total, Weigh, Stored, Balanced;
    var begun := PushOpens(wd, w, clock, entries, expired, len, initial);
    var slots := PassMoved(begun.sh, w, clock, expired, len);
    var (sh, reply) := Pass(begun.sh, w, clock, expired);
    hide Pass, ModeOf;
    var waiting := if reply == Waiting then wd.waiting[w := i] else wd.waiting;
    assert begun.log[i] == Record(w, clock, entries);
    assert i !in wd.settled;
    assert !Refused(reply) && (Succeeds(reply) <==> !Has(sh, SlotOf(begun.log[i])));
    assert forall v | v in wd.waiting :: v != w;
    hide *;
    ShardStep(begun, sh, slots, waiting, i, len, initial);
    SameSettled(begun, wd, sh, begun.log);
    var ev := Pushes(w, clock, entries, expired);
    StepOfPush(wd, ev, sh, reply, len);
    SoundFromParts(wd, ev, World(sh, begun.log, Settle(wd, sh, begun.log), waiting), reply, i, len, initial);
  }

  lemma SameSettled(a: World, b: World, sh: Shard, log: seq<Record>)
    requires a.settled == b.settled
    ensures Settle(a, sh, log) == Settle(b, sh, log)
  {
  }

  lemma SoundFromParts(wd: World, ev: Event, next: World, reply: Reply, i: int, len: Key -> nat, initial: (Key, nat) -> real)
    requires ev.Pushes? && Enabled(wd, ev, len) && Answer(wd, ev, len).1 == reply && Step(wd, ev, len) == next
    requires i == |wd.log| && Invariant(next, len, initial) && wd.settled <= next.settled && wd.log <= next.log
    requires Succeeds(reply) <==> i in next.settled
    requires !Succeeds(reply) ==> reply == Waiting || (reply == Failed(BarrierTimeout) && ev.expired)
    ensures StepSound(wd, ev, len, initial)
  {
    hide Step, Answer, Invariant;
  }

  lemma StepOfPush(wd: World, ev: Event, sh: Shard, reply: Reply, len: Key -> nat)
    requires ev.Pushes? && Enabled(wd, ev, len) && Answer(wd, ev, len) == (sh, reply) && !Refused(reply)
    ensures var log := wd.log + [Record(ev.w, ev.clock, ev.entries)];
      Step(wd, ev, len) == World(sh, log, Settle(wd, sh, log), if reply == Waiting then wd.waiting[ev.w := |wd.log|] else wd.waiting)
  {
  }

  lemma AsyncPushIsSound(wd: World, w: Id, clock: int, entries: seq<Entry>, expired: bool, len: Key -> nat,
                         initial: (Key, nat) -> real)
    requires Invariant(wd, len, initial) && Enabled(wd, Pushes(w, clock, entries, expired), len)
    requires w != 0 && clock >= 0
    requires var known := if w in wd.sh.workers then wd.sh else Enroll(wd.sh, w);
      known.mode == Async || ModeOf(known, w) == Async
    ensures StepSound(wd, Pushes(w, clock, entries, expired), len, initial)
  {
    var known := if w in wd.sh.workers then wd.sh else Enroll(wd.sh, w);
    MergeFromKeepsTotals([], entries, len);
    EnrollKeeps(wd, w, len, initial);
    var normalized := Merge(entries).entries;
    PushNowKeeps(wd.(sh := known), w, clock, entries, normalized, len, initial);
    assert Push(wd.sh, w, clock, entries, expired) == PushNow(known, w, clock, normalized);
    var log := wd.log + [Record(w, clock, entries)];
    assert log[|wd.log|] == Record(w, clock, entries);
    hide Push, PushNow, Has, Invariant, MergeFrom, ModeOf, Enroll;
  }

  /** Over any run the ledger stays balanced, and what is settled or recorded stays so. */
  lemma {:induction false} RunIsSound(wd: World, evs: seq<Event>, end: World, len: Key -> nat, initial: (Key, nat) -> real)
    requires Invariant(wd, len, initial) && Run(wd, evs, len, end)
    ensures Invariant(end, len, initial) && wd.settled <= end.settled && wd.log <= end.log
    decreases |evs|
  {
    if evs != [] {
      StepIsSound(wd, evs[0], len, initial);
      RunIsSound(Step(wd, evs[0], len), evs[1..], end, len, initial);
    }
  }

  /** Everything the accepted pushes were to add to one coordinate. */
  function Accepted(log: seq<Record>, k: Key, j: nat): real {
    if log == [] then 0.0 else Accepted(log[..|log| - 1], k, j) + Total(log[|log| - 1].entries, k, j)
  }

  lemma {:induction false} WeighAll(log: seq<Record>, chosen: set<int>, k: Key, j: nat)
    requires forall i | 0 <= i < |log| :: i in chosen
    ensures Weigh(log, chosen, k, j) == Accepted(log, k, j)
  {
    if log != [] {
      WeighAll(log[..|log| - 1], chosen, k, j);
    }
  }

  /** Stored values plus the whole pending table are the initial values plus every accepted push. */
  lemma Conservation(mode: Mode, initial: map<Key, seq<real>>, evs: seq<Event>, end: World, len: Key -> nat, k: Key, j: nat)
    requires forall k | k in initial :: |initial[k]| == len(k)
    requires Run(Start(mode, initial), evs, len, end)
    ensures Stored(end.sh, k, j) + SlotsTotal(end.sh, AllSlots(end.sh), k, j)
      == Stored(New(mode, initial), k, j) + Accepted(end.log, k, j)
  {
    var base := (k: Key, j: nat) => Stored(New(mode, initial), k, j);
    StartInvariant(mode, initial, len);
    RunIsSound(Start(mode, initial), evs, end, len, base);
    assert Balanced(end, k, j, base(k, j));
    AllSlotsComplete(end.sh);
    assert OpenIsPending(end);
    hide *;
    SettledAndOpen(end, AllSlots(end.sh), k, j, base(k, j));
  }

  lemma SettledAndOpen(wd: World, slots: seq<Slot>, k: Key, j: nat, initial: real)
    requires Balanced(wd, k, j, initial) && OpenIsPending(wd)
    requires DistinctSlots(slots) && forall s :: s in slots <==> Has(wd.sh, s)
    ensures Stored(wd.sh, k, j) + SlotsTotal(wd.sh, slots, k, j) == initial + Accepted(wd.log, k, j)
  {
    var open := Open(wd.log, wd.settled, set s | s in slots);
    SlotsWeigh(wd, slots, k, j, initial);
    hide Total, SlotsTotal, Stored, Weigh, Accepted, Has;
    assert forall i | 0 <= i < |wd.log| && i !in wd.settled :: SlotOf(wd.log[i]) in slots;
    WeighUnion(wd.log, wd.settled, open, k, j);
    WeighAll(wd.log, wd.settled + open, k, j);
  }
}
