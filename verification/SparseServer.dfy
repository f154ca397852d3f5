/**
 The shard object itself: the methods update the fields in place and raise part-way, as the
 request handlers do under the shard lock, and each is proved against its function on shards.
 */
module SparseServer {
  import opened SparseProtocol
  import opened SparseShard

  class ParameterServerState {
    var mode: Mode
    var values: map<Key, seq<real>>
    var versions: map<Key, nat>
    var workers: set<Id>
    var workerModes: map<Id, Mode>
    var pending: map<Id, map<int, seq<Entry>>>
    var appliedClock: map<Id, int>
    var globalClock: nat

    ghost function View(): Shard
      reads this
    {
      Shard(mode, values, versions, workers, workerModes, pending, appliedClock, globalClock)
    }

    constructor (mode: Mode, initial: map<Key, seq<real>>)
      ensures View() == New(mode, initial)
    {
      this.mode := mode;
      values := initial;
      versions := map k | k in initial :: 1;
      workers, workerModes, pending, appliedClock := {}, map[], map[], map[];
      globalClock := 0;
    }

    function DeclaredMode(w: Id): (m: Mode)
      reads this
      ensures m == ModeOf(View(), w)
    {
      if w in workerModes then workerModes[w] else mode
    }

    function LastClock(w: Id): (c: int)
      reads this
      ensures c == ClockOf(View(), w)
    {
      if w in appliedClock then appliedClock[w] else -1
    }

    method EnrollLocked(w: Id)
      modifies this
      ensures View() == Enroll(old(View()), w)
    {
      workers := workers + {w};
      workerModes := workerModes[w := mode];
      if w !in pending {
        pending := pending[w := map[]];
      }
      if w !in appliedClock {
        appliedClock := appliedClock[w := -1];
      }
      assert pending == old(pending)[w := PendingOf(old(View()), w)];
      assert appliedClock == old(appliedClock)[w := ClockOf(old(View()), w)];
    }

    method RegisterWorker(w: Id) returns (reply: Reply)
      modifies this
      ensures (View(), reply) == Register(old(View()), w)
    {
      if w == 0 {
        return Failed(EmptyWorkerId);
      }
      EnrollLocked(w);
      reply := Registered(globalClock);
    }

    method Pull(keys: seq<Key>) returns (requested: seq<Key>, pulled: seq<seq<real>>, seen: map<Key, nat>)
      ensures requested == Distinct(keys) && |pulled| == |requested|
      ensures forall i | 0 <= i < |requested| :: pulled[i] == PullOne(View(), requested[i]).0
      ensures forall k :: k in seen <==> k in keys
      ensures forall k | k in seen :: seen[k] == PullOne(View(), k).1
    {
      requested, pulled, seen := Distinct(keys), [], map[];
      ghost var sh := View();
      for n := 0 to |requested|
        invariant |pulled| == n
        invariant forall k :: k in seen <==> k in requested[..n]
        invariant forall i | 0 <= i < n :: pulled[i] == PullOne(sh, requested[i]).0
        invariant forall k | k in seen :: seen[k] == PullOne(sh, k).1
      {
        var k := requested[n];
        assert requested[..n + 1] == requested[..n] + [k];
        pulled := pulled + [if k in values then values[k] else MISSING];
        seen := seen[k := if k in versions then versions[k] else 0];
      }
      assert requested[..|requested|] == requested;
    }

    method ApplyLocked(es: seq<Entry>) returns (count: nat, ok: bool)
      modifies this`values, this`versions, this`globalClock
      ensures Outcome(View(), count, ok) == Apply(old(View()), es)
    {
      ghost var all := Apply(View(), es);
      hide Apply;
      count := 0;
      assert es[0..] == es;
      while count < |es|
        invariant 0 <= count <= |es|
        invariant all == Plus(count, Apply(View(), es[count..]))
      {
        assert es[count..] == [es[count]] + es[count + 1..];
        ApplyFirst(View(), es[count], es[count + 1..]);
        var fine := ApplyEntry(es[count]);
        if !fine {
          return count, false;
        }
        count := count + 1;
      }
      ApplyNothing(View(), es[count..]);
      ok := true;
    }

    method ApplyEntry(e: Entry) returns (ok: bool)
      modifies this`values, this`versions, this`globalClock
      ensures ok == Applicable(old(View()), e)
      ensures View() == if ok then ApplyOne(old(View()), e) else old(View())
    {
      if e.op == Set || e.key !in values {
        values := values[e.key := e.values];
      } else {
        var previous := values[e.key];
        if |previous| != |e.values| {
          return false;
        }
        values := values[e.key := AddVectors(previous, e.values)];
      }
      versions := versions[e.key := if e.key in versions then versions[e.key] + 1 else 1];
      globalClock := globalClock + 1;
      ok := true;
    }

    static lemma ApplyFirst(sh: Shard, e: Entry, rest: seq<Entry>)
      ensures Apply(sh, [e] + rest) ==
        if Applicable(sh, e) then Plus(1, Apply(ApplyOne(sh, e), rest)) else Outcome(sh, 0, false)
    {
      assert ([e] + rest)[1..] == rest;
    }

    static lemma ApplyNothing(sh: Shard, es: seq<Entry>)
      requires es == []
      ensures Apply(sh, es) == Outcome(sh, 0, true)
    {
    }

    method Push(w: Id, clock: int, entries: seq<Entry>, expired: bool) returns (reply: Reply)
      modifies this
      ensures (View(), reply) == SparseShard.Push(old(View()), w, clock, entries, expired)
    {
      if w == 0 {
        return Failed(EmptyWorkerId);
      }
      if clock < 0 {
        return Failed(NegativeClock);
      }
      var merged := MergeEntries(entries);
      if merged.MergeConflict? {
        return Failed(Conflict);
      }
      if w !in workers {
        EnrollLocked(w);
      }
      if mode == Async || DeclaredMode(w) == Async {
        var count, ok := ApplyLocked(merged.entries);
        if !ok {
          return Failed(LengthMismatch);
        }
        appliedClock := appliedClock[w := Max(LastClock(w), clock)];
        return Applied(count, globalClock, 0);
      }
      var waiting := if w in pending then pending[w] else map[];
      pending := pending[w := waiting];
      var current := MergeOnto(if clock in waiting then waiting[clock] else [], merged.entries);
      if current.MergeConflict? {
        return Failed(Conflict);
      }
      pending := pending[w := waiting[clock := current.entries]];
      reply := BarrierPass(w, clock, expired);
    }

    /** One pass through the waiting loop; the thread sleeps when the reply is Waiting. */
    method BarrierPass(w: Id, clock: int, expired: bool) returns (reply: Reply)
      modifies this
      ensures (View(), reply) == Pass(old(View()), w, clock, expired)
    {
      if mode == Async {
        return Switched(globalClock);
      }
      if LastClock(w) >= clock && !(w in pending && clock in pending[w]) {
        return Joined(globalClock);
      }
      if forall v | v in workers && DeclaredMode(v) == Sync :: v in pending && clock in pending[v] {
        assert Ready(View(), clock);
        reply := CloseBarrier(clock);
        return;
      }
      assert !Ready(View(), clock) by {
        var v :| v in workers && DeclaredMode(v) == Sync && !(v in pending && clock in pending[v]);
        assert v in SyncWorkers(View()) && !Has(View(), Slot(v, clock));
      }
      if expired {
        return Failed(BarrierTimeout);
      }
      reply := Waiting;
    }

    method CloseBarrier(clock: int) returns (reply: Reply)
      requires Ready(View(), clock)
      modifies this
      ensures (View(), reply) == Barrier(old(View()), clock)
    {
      ghost var start := View();
      hide PopAll, SyncOnly, MergeFrom, Apply, Sorted, AdvanceAll;
      var grouped := TakeContributions(Sorted(workers), clock);
      var merged := MergeEntries(grouped);
      if merged.MergeConflict? {
        return Failed(Conflict);
      }
      var count, ok := ApplyLocked(merged.entries);
      if !ok {
        return Failed(LengthMismatch);
      }
      SameSync(View(), start);
      AdvanceSynced(clock);
      reply := Applied(count, globalClock, |workers|);
    }

    static lemma SameSync(a: Shard, b: Shard)
      requires a.mode == b.mode && a.workers == b.workers && a.workerModes == b.workerModes
      ensures SyncWorkers(a) == SyncWorkers(b)
    {
    }

    method AdvanceSynced(clock: int)
      modifies this`appliedClock
      ensures View() == AdvanceAll(old(View()), SyncWorkers(old(View())), clock)
    {
      ghost var start := View();
      var synced := set v | v in workers && DeclaredMode(v) == Sync;
      assert synced == SyncWorkers(start);
      appliedClock := map v | v in appliedClock.Keys + synced ::
        if v in synced then Max(LastClock(v), clock) else appliedClock[v];
      assert appliedClock == AdvanceAll(start, synced, clock).appliedClock;
    }

    method TakeContributions(order: seq<Id>, clock: int) returns (grouped: seq<Entry>)
      requires Increasing(order)
      requires forall v | v in order && ModeOf(View(), v) == Sync :: Has(View(), Slot(v, clock))
      modifies this`pending
      ensures (View(), grouped) == PopAll(old(View()), SyncOnly(old(View()), order), clock)
    {
      grouped := [];
      ghost var all := PopAll(View(), SyncOnly(View(), order), clock);
      hide PopAll, SyncOnly;
      assert order[0..] == order && [] + all.1 == all.1;
      var n := 0;
      while n < |order|
        invariant 0 <= n <= |order|
        invariant forall i | n <= i < |order| && ModeOf(View(), order[i]) == Sync :: Has(View(), Slot(order[i], clock))
        invariant all.0 == PopAll(View(), SyncOnly(View(), order[n..]), clock).0
        invariant all.1 == grouped + PopAll(View(), SyncOnly(View(), order[n..]), clock).1
      {
        ghost var collected := grouped;
        var entries := TakeIfSync(order[n], clock, order[n + 1..]);
        assert order[n..] == [order[n]] + order[n + 1..];
        grouped := grouped + entries;
        Associate(collected, entries, PopAll(View(), SyncOnly(View(), order[n + 1..]), clock).1);
        n := n + 1;
      }
      PopNothing(View(), order[n..], clock);
      assert grouped + [] == grouped;
    }

    method TakeIfSync(w: Id, clock: int, ghost rest: seq<Id>) returns (entries: seq<Entry>)
      requires ModeOf(View(), w) == Sync ==> Has(View(), Slot(w, clock))
      modifies this`pending
      ensures forall v :: ModeOf(View(), v) == ModeOf(old(View()), v)
      ensures forall v | v != w :: Has(View(), Slot(v, clock)) == Has(old(View()), Slot(v, clock))
      ensures var before, after := PopAll(old(View()), SyncOnly(old(View()), [w] + rest), clock),
                                   PopAll(View(), SyncOnly(View(), rest), clock);
        before.0 == after.0 && before.1 == entries + after.1
    {
      ghost var start := View();
      SyncOnlyFirst(start, w, rest);
      if DeclaredMode(w) != Sync {
        entries := [];
        assert [] + PopAll(start, SyncOnly(start, rest), clock).1 == PopAll(start, SyncOnly(start, rest), clock).1;
        return;
      }
      PopFirst(start, w, SyncOnly(start, rest), clock);
      entries := pending[w][clock];
      pending := pending[w := pending[w] - {clock}];
      assert View() == Pop(start, Slot(w, clock));
      SameModes(start, View(), rest);
    }

    static lemma SyncOnlyFirst(sh: Shard, w: Id, rest: seq<Id>)
      ensures SyncOnly(sh, [w] + rest) == if ModeOf(sh, w) == Sync then [w] + SyncOnly(sh, rest) else SyncOnly(sh, rest)
    {
      assert ([w] + rest)[1..] == rest;
    }

    static lemma SameModes(a: Shard, b: Shard, ws: seq<Id>)
      requires a.mode == b.mode && a.workerModes == b.workerModes
      ensures SyncOnly(a, ws) == SyncOnly(b, ws)
    {
    }

    static lemma PopFirst(sh: Shard, w: Id, rest: seq<Id>, clock: int)
      ensures PopAll(sh, [w] + rest, clock) ==
        var later := PopAll(Pop(sh, Slot(w, clock)), rest, clock);
        (later.0, PendingAt(sh, Slot(w, clock)) + later.1)
    {
      assert ([w] + rest)[1..] == rest;
    }

    static lemma Associate(a: seq<Entry>, b: seq<Entry>, c: seq<Entry>)
      ensures (a + b) + c == a + (b + c)
    {
    }

    static lemma PopNothing(sh: Shard, ws: seq<Id>, clock: int)
      requires ws == []
      ensures PopAll(sh, SyncOnly(sh, ws), clock) == (sh, [])
    {
    }

    method SwitchMode(next: Mode, w: Id) returns (reply: ModeReply)
      modifies this
      ensures (View(), reply) == SetMode(old(View()), next, w)
    {
      var previous := mode;
      if next == previous {
        if w != 0 {
          workerModes := workerModes[w := next];
        }
        return Unchanged(next);
      }
      mode := next;
      if w != 0 {
        workerModes := workerModes[w := next];
      } else {
        workerModes := map v | v in workerModes.Keys + workers :: if v in workers then next else workerModes[v];
      }
      var flushed := 0;
      if next == Async {
        var ok;
        flushed, ok := FlushPending();
        if !ok {
          return ModeFailed(LengthMismatch);
        }
      }
      reply := Changed(previous, flushed, globalClock);
    }

    method FlushPending() returns (flushed: nat, ok: bool)
      modifies this
      ensures Outcome(View(), flushed, ok) == Flush(old(View()), AllSlots(old(View())))
    {
      flushed, ok := FlushWorkers(Sorted(pending.Keys));
    }

    method FlushWorkers(order: seq<Id>) returns (flushed: nat, ok: bool)
      requires Increasing(order)
      modifies this
      ensures Outcome(View(), flushed, ok) == Flush(old(View()), SlotsFrom(old(View()), order))
    {
      ghost var start := View();
      ghost var all := Flush(start, SlotsFrom(start, order));
      hide Flush, SlotsFrom, Sorted;
      flushed := 0;
      var n := 0;
      assert order[0..] == order;
      while n < |order|
        invariant 0 <= n <= |order|
        invariant forall i | n <= i < |order| :: PendingOf(View(), order[i]) == PendingOf(start, order[i])
        invariant all == Plus(flushed, Flush(View(), SlotsFrom(start, order[n..])))
      {
        var w := order[n];
        SlotsFromFirst(start, order, n);
        var clocks := Sorted((if w in pending then pending[w] else map[]).Keys);
        var count, fine := FlushWorker(w, clocks, SlotsFrom(start, order[n + 1..]));
        flushed := flushed + count;
        if !fine {
          return flushed, false;
        }
        n := n + 1;
      }
      FlushNothing(View(), SlotsFrom(start, order[n..])) by {
        SlotsFromNothing(start, order[n..]);
      }
      ok := true;
    }

    static lemma FlushNothing(sh: Shard, slots: seq<Slot>)
      requires slots == []
      ensures Flush(sh, slots) == Outcome(sh, 0, true)
    {
    }

    static lemma SlotsFromNothing(sh: Shard, ws: seq<Id>)
      requires ws == []
      ensures SlotsFrom(sh, ws) == []
    {
    }

    static lemma SlotsFromFirst(sh: Shard, ws: seq<Id>, n: nat)
      requires n < |ws|
      ensures SlotsFrom(sh, ws[n..]) == SlotsOf(ws[n], Sorted(PendingOf(sh, ws[n]).Keys)) + SlotsFrom(sh, ws[n + 1..])
    {
      assert ws[n..][1..] == ws[n + 1..];
    }

    /** The clocks of one worker; the slots of the workers still to come follow. */
    method FlushWorker(w: Id, clocks: seq<int>, ghost later: seq<Slot>) returns (flushed: nat, ok: bool)
      requires Increasing(clocks) && forall i | 0 <= i < |clocks| :: Has(View(), Slot(w, clocks[i]))
      modifies this
      ensures forall v | v != w :: PendingOf(View(), v) == PendingOf(old(View()), v)
      ensures Flush(old(View()), SlotsOf(w, clocks) + later)
        == if ok then Plus(flushed, Flush(View(), later)) else Outcome(View(), flushed, false)
    {
      ghost var start := View();
      flushed := 0;
      ghost var all := Flush(start, SlotsOf(w, clocks) + later);
      assert clocks[0..] == clocks;
      hide Flush, Apply, SlotsOf, Pop;
      var m := 0;
      while m < |clocks|
        invariant 0 <= m <= |clocks|
        invariant forall v | v != w :: PendingOf(View(), v) == PendingOf(start, v)
        invariant forall i | m <= i < |clocks| :: Has(View(), Slot(w, clocks[i]))
        invariant all == Plus(flushed, Flush(View(), SlotsOf(w, clocks[m..]) + later))
      {
        SlotsOfFirst(w, clocks, m, later);
        FlushFirst(View(), Slot(w, clocks[m]), SlotsOf(w, clocks[m + 1..]) + later);
        var count, fine := FlushSlot(w, clocks[m]);
        flushed := flushed + count;
        if !fine {
          return flushed, false;
        }
        m := m + 1;
      }
      SlotsOfNothing(w, clocks[m..], later);
      ok := true;
    }

    static lemma SlotsOfFirst(w: Id, clocks: seq<int>, m: nat, later: seq<Slot>)
      requires m < |clocks|
      ensures SlotsOf(w, clocks[m..]) + later == [Slot(w, clocks[m])] + (SlotsOf(w, clocks[m + 1..]) + later)
    {
    }

    static lemma SlotsOfNothing(w: Id, clocks: seq<int>, later: seq<Slot>)
      requires clocks == []
      ensures SlotsOf(w, clocks) + later == later
    {
    }

    static ghost function Plus(count: nat, o: Outcome): Outcome { o.(count := count + o.count) }

    static lemma FlushFirst(sh: Shard, s: Slot, rest: seq<Slot>)
      ensures Flush(sh, [s] + rest) ==
        var done := Apply(Pop(sh, s), PendingAt(sh, s));
        if done.ok then Plus(done.count, Flush(Advance(done.shard, s.worker, s.clock), rest)) else done
    {
      assert ([s] + rest)[1..] == rest;
    }

    method FlushSlot(w: Id, clock: int) returns (count: nat, ok: bool)
      requires Has(View(), Slot(w, clock))
      modifies this
      ensures var done := Apply(Pop(old(View()), Slot(w, clock)), PendingAt(old(View()), Slot(w, clock)));
        && count == done.count && ok == done.ok
        && View() == if ok then Advance(done.shard, w, clock) else done.shard
      ensures forall v | v != w :: PendingOf(View(), v) == PendingOf(old(View()), v)
      ensures PendingOf(View(), w) == PendingOf(old(View()), w) - {clock}
    {
      var entries := pending[w][clock];
      pending := pending[w := pending[w] - {clock}];
      count := 0;
      if entries != [] {
        count, ok := ApplyLocked(entries);
        if !ok {
          return;
        }
      }
      appliedClock := appliedClock[w := Max(LastClock(w), clock)];
      ok := true;
    }
  }
}
