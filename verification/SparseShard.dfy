/**
 One shard of the sparse parameter server: every request as a function from shard to shard,
 which the shard object is proved against. A push that has to wait returns Waiting, and each
 later wake-up of the waiting thread is one more atomic pass through the barrier loop.

 Worker ids are integers ordered as the id strings are; 0 stands for the empty string.
 */
module SparseShard {
  import opened SparseProtocol

  type Id = int

  datatype Mode = Sync | Async

  datatype Shard = Shard(
    mode: Mode,
    values: map<Key, seq<real>>,
    versions: map<Key, nat>,
    workers: set<Id>,
    workerModes: map<Id, Mode>,
    pending: map<Id, map<int, seq<Entry>>>,
    appliedClock: map<Id, int>,
    globalClock: nat
  )

  datatype Reply =
    | Applied(applied: nat, version: nat, workers: nat)
    | Registered(registeredVersion: nat)
    | Joined(joinedVersion: nat)
    | Switched(switchedVersion: nat)
    | Waiting
    | Failed(error: Error)

  datatype Error = EmptyWorkerId | NegativeClock | Conflict | LengthMismatch | BarrierTimeout

  datatype ModeReply =
    | Unchanged(mode: Mode)
    | Changed(previous: Mode, flushed: nat, version: nat)
    | ModeFailed(error: Error)

  datatype Slot = Slot(worker: Id, clock: int)

  /** What a request leaves behind, and whether applying entries raised on the way. */
  datatype Outcome = Outcome(shard: Shard, count: nat, ok: bool)

  const MISSING: seq<real> := [0.0]

  function New(mode: Mode, initial: map<Key, seq<real>>): Shard {
    Shard(mode, initial, map k | k in initial :: 1, {}, map[], map[], map[], 0)
  }

  // ----- look-ups with the defaults the dictionaries are read with -----

  function ModeOf(sh: Shard, w: Id): Mode {
    if w in sh.workerModes then sh.workerModes[w] else sh.mode
  }

  function PendingOf(sh: Shard, w: Id): map<int, seq<Entry>> {
    if w in sh.pending then sh.pending[w] else map[]
  }

  function ClockOf(sh: Shard, w: Id): int {
    if w in sh.appliedClock then sh.appliedClock[w] else -1
  }

  function Max(a: int, b: int): int { if a >= b then a else b }

  predicate Has(sh: Shard, s: Slot) {
    s.clock in PendingOf(sh, s.worker)
  }

  function SyncWorkers(sh: Shard): set<Id> {
    set w | w in sh.workers && ModeOf(sh, w) == Sync
  }

  // ----- sorted iteration over finite sets -----

  ghost function AnyOf<T>(s: set<T>): (x: T)
    requires s != {}
    ensures x in s
  {
    var x :| x in s; x
  }

  function Least(s: set<int>): (m: int)
    requires s != {}
    ensures m in s && forall x | x in s :: m <= x
  {
    LeastExists(s);
    var x :| x in s && forall y | y in s :: x <= y;
    x
  }

  lemma {:induction false} LeastExists(s: set<int>)
    requires s != {}
    ensures exists x :: x in s && forall y | y in s :: x <= y
  {
    var x := AnyOf(s);
    var rest := s - {x};
    if rest == {} {
      forall y | y in s ensures x <= y {
        assert y == x || y in rest;
      }
    } else {
      LeastExists(rest);
      var m :| m in rest && forall y | y in rest :: m <= y;
      assert forall y | y in s && y != x :: y in rest;
      LeastOfTwo(s, x, m);
    }
  }

  lemma LeastOfTwo(s: set<int>, x: int, m: int)
    requires x in s && m in s && forall y | y in s && y != x :: m <= y
    ensures exists z :: z in s && forall y | y in s :: z <= y
  {
    var z := if x <= m then x else m;
    assert z in s && forall y | y in s :: z <= y;
  }

  ghost predicate Increasing(xs: seq<int>) {
    forall i, j | 0 <= i < j < |xs| :: xs[i] < xs[j]
  }

  function Sorted(s: set<int>): (r: seq<int>)
    ensures forall x :: x in r <==> x in s
    ensures Increasing(r)
  {
    if s == {} then []
    else
      var m := Least(s);
      var rest := Sorted(s - {m});
      assert forall i | 0 <= i < |rest| :: rest[i] in s - {m};
      [m] + rest
  }

  // ----- applying entries: a failure keeps what was applied before it -----

  predicate Applicable(sh: Shard, e: Entry) {
    e.op == Set || e.key !in sh.values || |sh.values[e.key]| == |e.values|
  }

  function ApplyOne(sh: Shard, e: Entry): Shard
    requires Applicable(sh, e)
  {
    var stored := if e.op == Set || e.key !in sh.values then e.values
                  else AddVectors(sh.values[e.key], e.values);
    var version := if e.key in sh.versions then sh.versions[e.key] + 1 else 1;
    sh.(values := sh.values[e.key := stored],
        versions := sh.versions[e.key := version],
        globalClock := sh.globalClock + 1)
  }

  function Apply(sh: Shard, es: seq<Entry>): Outcome
    decreases |es|
  {
    if es == [] then Outcome(sh, 0, true)
    else if !Applicable(sh, es[0]) then Outcome(sh, 0, false)
    else
      var rest := Apply(ApplyOne(sh, es[0]), es[1..]);
      Outcome(rest.shard, rest.count + 1, rest.ok)
  }

  // ----- requests -----

  function Enroll(sh: Shard, w: Id): Shard {
    sh.(workers := sh.workers + {w},
        workerModes := sh.workerModes[w := sh.mode],
        pending := sh.pending[w := PendingOf(sh, w)],
        appliedClock := sh.appliedClock[w := ClockOf(sh, w)])
  }

  function Register(sh: Shard, w: Id): (Shard, Reply) {
    if w == 0 then (sh, Failed(EmptyWorkerId))
    else var next := Enroll(sh, w); (next, Registered(next.globalClock))
  }

  function Distinct(keys: seq<Key>): (r: seq<Key>)
    ensures forall k :: k in r <==> k in keys
    ensures forall i, j | 0 <= i < j < |r| :: r[i] != r[j]
  {
    if keys == [] then []
    else
      var front := Distinct(keys[..|keys| - 1]);
      if keys[|keys| - 1] in front then front else front + [keys[|keys| - 1]]
  }

  /** Keys stand in the order in which they are first seen: more keys only add at the end. */
  lemma {:induction false} DistinctGrows(keys: seq<Key>, n: nat)
    requires n <= |keys|
    ensures Distinct(keys[..n]) <= Distinct(keys)
    decreases |keys|
  {
    if n < |keys| {
      var front := keys[..|keys| - 1];
      DistinctGrows(front, n);
      assert front[..n] == keys[..n];
    } else {
      assert keys[..n] == keys;
    }
  }

  function PullOne(sh: Shard, k: Key): (seq<real>, nat) {
    (if k in sh.values then sh.values[k] else MISSING,
     if k in sh.versions then sh.versions[k] else 0)
  }

  function Advance(sh: Shard, w: Id, clock: int): Shard {
    sh.(appliedClock := sh.appliedClock[w := Max(ClockOf(sh, w), clock)])
  }

  function AdvanceAll(sh: Shard, ws: set<Id>, clock: int): Shard {
    sh.(appliedClock := map w | w in sh.appliedClock.Keys + ws ::
      if w in ws then Max(ClockOf(sh, w), clock) else sh.appliedClock[w])
  }

  function Push(sh: Shard, w: Id, clock: int, entries: seq<Entry>, expired: bool): (Shard, Reply) {
    if w == 0 then (sh, Failed(EmptyWorkerId))
    else if clock < 0 then (sh, Failed(NegativeClock))
    else match Merge(entries)
      case MergeConflict => (sh, Failed(Conflict))
      case Merged(normalized) =>
        var known := if w in sh.workers then sh else Enroll(sh, w);
        if known.mode == Async || ModeOf(known, w) == Async then
          PushNow(known, w, clock, normalized)
        else
          var ready := known.(pending := known.pending[w := PendingOf(known, w)]);
          match MergeFrom(PendingAt(ready, Slot(w, clock)), normalized)
          case MergeConflict => (ready, Failed(Conflict))
          case Merged(current) =>
            Pass(ready.(pending := ready.pending[w := ready.pending[w][clock := current]]), w, clock, expired)
  }

  function PushNow(sh: Shard, w: Id, clock: int, normalized: seq<Entry>): (Shard, Reply) {
    var done := Apply(sh, normalized);
    if !done.ok then (done.shard, Failed(LengthMismatch))
    else (Advance(done.shard, w, clock), Applied(done.count, done.shard.globalClock, 0))
  }

  function PendingAt(sh: Shard, s: Slot): seq<Entry> {
    if Has(sh, s) then PendingOf(sh, s.worker)[s.clock] else []
  }

  predicate Ready(sh: Shard, clock: int) {
    forall w | w in SyncWorkers(sh) :: Has(sh, Slot(w, clock))
  }

  /** One pass through the body of the barrier loop. */
  function Pass(sh: Shard, w: Id, clock: int, expired: bool): (Shard, Reply) {
    if sh.mode == Async then (sh, Switched(sh.globalClock))
    else if ClockOf(sh, w) >= clock && !Has(sh, Slot(w, clock)) then (sh, Joined(sh.globalClock))
    else if Ready(sh, clock) then Barrier(sh, clock)
    else if expired then (sh, Failed(BarrierTimeout))
    else (sh, Waiting)
  }

  function Pop(sh: Shard, s: Slot): Shard {
    sh.(pending := sh.pending[s.worker := PendingOf(sh, s.worker) - {s.clock}])
  }

  /** Take the listed workers' entries for one clock out of the pending table, in order. */
  function PopAll(sh: Shard, ws: seq<Id>, clock: int): (Shard, seq<Entry>)
    decreases |ws|
  {
    if ws == [] then (sh, [])
    else
      var rest := PopAll(Pop(sh, Slot(ws[0], clock)), ws[1..], clock);
      (rest.0, PendingAt(sh, Slot(ws[0], clock)) + rest.1)
  }

  /** The workers whose declared mode is sync, in the order given. */
  function SyncOnly(sh: Shard, ws: seq<Id>): (r: seq<Id>)
    ensures forall x :: x in r <==> x in ws && ModeOf(sh, x) == Sync
  {
    if ws == [] then []
    else if ModeOf(sh, ws[0]) == Sync then [ws[0]] + SyncOnly(sh, ws[1..])
    else SyncOnly(sh, ws[1..])
  }

  function Barrier(sh: Shard, clock: int): (Shard, Reply) {
    var (popped, grouped) := PopAll(sh, SyncOnly(sh, Sorted(sh.workers)), clock);
    match Merge(grouped)
    case MergeConflict => (popped, Failed(Conflict))
    case Merged(es) =>
      var done := Apply(popped, es);
      if !done.ok then (done.shard, Failed(LengthMismatch))
      else
        (AdvanceAll(done.shard, SyncWorkers(sh), clock),
         Applied(done.count, done.shard.globalClock, |sh.workers|))
  }

  /** Apply the pending work of the listed slots, one slot after the other. */
  function Flush(sh: Shard, slots: seq<Slot>): Outcome
    decreases |slots|
  {
    if slots == [] then Outcome(sh, 0, true)
    else
      var done := Apply(Pop(sh, slots[0]), PendingAt(sh, slots[0]));
      if !done.ok then done
      else
        var rest := Flush(Advance(done.shard, slots[0].worker, slots[0].clock), slots[1..]);
        Outcome(rest.shard, done.count + rest.count, rest.ok)
  }

  function SlotsOf(w: Id, clocks: seq<int>): seq<Slot> {
    seq(|clocks|, i requires 0 <= i < |clocks| => Slot(w, clocks[i]))
  }

  /** The slots in the order the flush visits them: by worker, then by clock. */
  function SlotsFrom(sh: Shard, ws: seq<Id>): seq<Slot> {
    if ws == [] then []
    else SlotsOf(ws[0], Sorted(PendingOf(sh, ws[0]).Keys)) + SlotsFrom(sh, ws[1..])
  }

  function AllSlots(sh: Shard): seq<Slot> {
    SlotsFrom(sh, Sorted(sh.pending.Keys))
  }

  function Declare(sh: Shard, mode: Mode, w: Id): map<Id, Mode> {
    if w != 0 then sh.workerModes[w := mode]
    else map v | v in sh.workerModes.Keys + sh.workers :: if v in sh.workers then mode else sh.workerModes[v]
  }

  function SetMode(sh: Shard, mode: Mode, w: Id): (Shard, ModeReply) {
    if mode == sh.mode then
      (if w != 0 then sh.(workerModes := sh.workerModes[w := mode]) else sh, Unchanged(mode))
    else
      var declared := sh.(mode := mode, workerModes := Declare(sh, mode, w));
      if mode == Async then
        var done := Flush(declared, AllSlots(declared));
        if done.ok then (done.shard, Changed(sh.mode, done.count, done.shard.globalClock))
        else (done.shard, ModeFailed(LengthMismatch))
      else (declared, Changed(sh.mode, 0, declared.globalClock))
  }
}
