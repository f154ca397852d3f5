/**
 The clocks up to which each worker's pushes have been applied: what every request makes of them, and
 that everybody who waited for a round that was applied is released.
 */
module SparseClocks {
  import opened SparseProtocol
  import opened SparseShard
  import opened SparseLedger
  import opened SparseFailures
  import opened SparseLosses
  import opened SparseBook
  import opened SparseAnswers
  import opened SparseModes

  /** The clocks are those before but for some workers, whose clock is now at least the one given. */
  ghost predicate Raised(a: Shard, b: Shard, ws: set<Id>, clock: int) {
    forall v: Id :: ClockOf(b, v) == if v in ws && clock > ClockOf(a, v) then clock else ClockOf(a, v)
  }

  /** A round that is applied raises the clocks of exactly its workers; one that raises, none. */
  lemma RoundClocks(sh: Shard, clock: int)
    ensures var (next, reply) := Barrier(sh, clock);
      Raised(sh, next, if reply.Applied? then SyncWorkers(sh) else {}, clock)
  {
    var popped := GroupedIs(sh, clock);
    var grouped := Grouped(sh, clock);
    GroupedFrom(sh, popped, clock);
    BarrierIs(sh, clock, popped, grouped);
    hide Barrier, Grouped, MergeFrom, SyncWorkers, SlotsTaken, PopAll, SyncOnly, Sorted, Apply;
    if Merge(grouped).Merged? {
      var es := Merge(grouped).entries;
      ApplyFrame(popped, es);
      AllRaised(sh, Apply(popped, es).shard, clock);
    }
  }

  lemma AllRaised(sh: Shard, done: Shard, clock: int)
    requires done.appliedClock == sh.appliedClock
    ensures Raised(sh, done, {}, clock)
    ensures Raised(sh, AdvanceAll(done, SyncWorkers(sh), clock), SyncWorkers(sh), clock)
  {
    hide SyncWorkers;
  }

  /** A push that is applied at once raises its worker's clock; one that raises leaves it. */
  lemma PushNowClocks(sh: Shard, w: Id, clock: int, es: seq<Entry>)
    ensures var (next, reply) := PushNow(sh, w, clock, es);
      Raised(sh, next, if reply.Applied? then {w} else {}, clock)
  {
    ApplyFrame(sh, es);
    hide Apply;
  }

  /** After a flush a worker's clock is the highest of the clock before and those of its flushed slots. */
  ghost predicate RaisedBy(a: Shard, b: Shard, slots: seq<Slot>) {
    && (forall v: Id :: ClockOf(b, v) >= ClockOf(a, v))
    && (forall s | s in slots :: ClockOf(b, s.worker) >= s.clock)
    && forall v: Id :: ClockOf(b, v) == ClockOf(a, v) || Slot(v, ClockOf(b, v)) in slots
  }

  lemma {:induction false} FlushClocks(sh: Shard, slots: seq<Slot>) returns (taken: seq<Slot>)
    ensures taken <= slots && RaisedBy(sh, Flush(sh, slots).shard, taken)
    ensures Flush(sh, slots).ok ==> taken == slots
    decreases |slots|
  {
    if slots == [] {
      taken := [];
    } else {
      var s, next := slots[0], FlushFirst(sh, slots[0]);
      hide *;
      FlushUnfolds(sh, slots);
      FirstClocks(sh, s);
      if !Apply(Pop(sh, s), PendingAt(sh, s)).ok {
        taken := [];
      } else {
        var later := FlushClocks(next, slots[1..]);
        taken := [s] + later;
        RaisedLater(sh, next, Flush(sh, slots).shard, s, later);
        LongerPrefix(slots, later);
      }
    }
  }

  lemma LongerPrefix(slots: seq<Slot>, later: seq<Slot>)
    requires slots != [] && later <= slots[1..]
    ensures [slots[0]] + later <= slots && (later == slots[1..] ==> [slots[0]] + later == slots)
  {
  }

  lemma FirstClocks(sh: Shard, s: Slot)
    ensures var done := Apply(Pop(sh, s), PendingAt(sh, s));
      RaisedBy(sh, done.shard, []) && (done.ok ==> Raised(sh, FlushFirst(sh, s), {s.worker}, s.clock))
  {
    ApplyFrame(Pop(sh, s), PendingAt(sh, s));
    hide Apply, PendingAt;
  }

  lemma RaisedLater(a: Shard, b: Shard, c: Shard, s: Slot, later: seq<Slot>)
    requires Raised(a, b, {s.worker}, s.clock) && RaisedBy(b, c, later)
    ensures RaisedBy(a, c, [s] + later)
  {
    hide ClockOf;
    forall v: Id ensures ClockOf(c, v) == ClockOf(a, v) || Slot(v, ClockOf(c, v)) in [s] + later {
    }
  }

  /** A switch to async raises clocks by the slots it takes out, all of them if it succeeds. */
  lemma SwitchClocks(sh: Shard, mode: Mode, w: Id) returns (taken: seq<Slot>)
    ensures RaisedBy(sh, SetMode(sh, mode, w).0, taken) && taken <= AllSlots(sh)
    ensures SetMode(sh, mode, w).1.Changed? && Flushes(sh, mode) ==> taken == AllSlots(sh)
    ensures !Flushes(sh, mode) ==> taken == []
  {
    if Flushes(sh, mode) {
      taken := FlushedClocks(sh, w);
    } else {
      taken := [];
    }
  }

  lemma FlushedClocks(sh: Shard, w: Id) returns (taken: seq<Slot>)
    requires sh.mode == Sync
    ensures RaisedBy(sh, SetMode(sh, Async, w).0, taken) && taken <= AllSlots(sh)
    ensures SetMode(sh, Async, w).1.Changed? ==> taken == AllSlots(sh)
  {
    assert Declared(sh, w).appliedClock == sh.appliedClock;
    hide *;
    FlushedIs(sh, w);
    SwitchSucceeds(sh, w);
    taken := FlushClocks(Declared(sh, w), AllSlots(sh));
    SameStart(sh, Declared(sh, w), SetMode(sh, Async, w).0, taken);
  }

  lemma SameStart(a: Shard, b: Shard, c: Shard, slots: seq<Slot>)
    requires RaisedBy(b, c, slots) && b.appliedClock == a.appliedClock
    ensures RaisedBy(a, c, slots)
  {
    assert forall v: Id :: ClockOf(b, v) == ClockOf(a, v);
    hide ClockOf;
  }

  lemma SwitchSucceeds(sh: Shard, w: Id)
    requires sh.mode == Sync
    ensures SetMode(sh, Async, w).1.Changed? ==> Flush(Declared(sh, w), AllSlots(sh)).ok
  {
    SameSlots(sh, Declared(sh, w));
    hide Flush, AllSlots;
  }

  // ----- clocks never fall, and slots appear only by pushes -----

  ghost predicate Later(a: Shard, b: Shard, r: Request) {
    && (forall v: Id :: ClockOf(b, v) >= ClockOf(a, v))
    && forall s: Slot | Has(b, s) :: Has(a, s) || Opens(r, s.worker, s.clock)
  }

  lemma PassLater(sh: Shard, begun: Shard, r: Request, w: Id, clock: int, expired: bool)
    requires Later(sh, begun, r)
    ensures Later(sh, Pass(begun, w, clock, expired).0, r)
  {
    PassLeaves(begun, w, clock, expired);
    RoundClocks(begun, clock);
    hide Barrier, Has, PassTakes, PendingAt, SyncWorkers, Ready;
  }

  lemma PushLater(sh: Shard, w: Id, clock: int, entries: seq<Entry>, expired: bool)
    ensures Later(sh, Push(sh, w, clock, entries, expired).0, Pushing(w, clock, entries, expired))
  {
    var r := Pushing(w, clock, entries, expired);
    var known := Known(sh, w);
    EnrolledLater(sh, w, r);
    ReadySlots(known, w);
    hide Pass, MergeFrom, Enroll, PushNow, Has;
    if w != 0 && clock >= 0 && Merge(entries).Merged? {
      if known.mode == Async || ModeOf(known, w) == Async {
        AtOnceLater(sh, known, r, w, clock, Merge(entries).entries);
      } else if JoinedSlot(known, w, clock, entries).Merged? {
        var current := JoinedSlot(known, w, clock, entries).entries;
        PushUnfolds(sh, w, clock, entries, Merge(entries).entries, current, expired);
        OpenedLater(sh, known, r, w, clock, current);
        PassLater(sh, Opened(known, w, clock, current), r, w, clock, expired);
      }
    }
  }

  lemma EnrolledLater(sh: Shard, w: Id, r: Request)
    ensures Later(sh, Known(sh, w), r) && Later(sh, sh, r)
  {
    KnownSlots(sh, w);
    hide Has;
  }

  lemma OpenedLater(sh: Shard, known: Shard, r: Request, w: Id, clock: int, current: seq<Entry>)
    requires Later(sh, known, r) && Opens(r, w, clock)
    ensures Later(sh, Opened(known, w, clock, current), r)
  {
    OpenedSlots(known, w, clock, current);
    hide Has, PendingAt;
  }

  lemma AtOnceLater(sh: Shard, known: Shard, r: Request, w: Id, clock: int, es: seq<Entry>)
    requires Later(sh, known, r)
    ensures Later(sh, PushNow(known, w, clock, es).0, r)
  {
    PushNowClocks(known, w, clock, es);
    ApplyFrame(known, es);
    var next := PushNow(known, w, clock, es).0;
    assert next.pending == known.pending;
    SamePending(known, next);
    hide PushNow, Has, PendingAt;
  }

  lemma StepLater(sh: Shard, r: Request)
    ensures Later(sh, Serve(sh, r), r)
  {
    match r
    case Registering(w) =>
      RegisterFrame(sh, w);
      hide Has;
    case Pushing(w, clock, entries, expired) => PushLater(sh, w, clock, entries, expired);
    case Waking(w, clock, expired) => PassLater(sh, sh, r, w, clock, expired);
    case Switching(mode, w) =>
      var raised := SwitchClocks(sh, mode, w);
      var taken := SwitchLeaves(sh, mode, w);
      hide SetMode, Has, PendingAt, AllSlots, Stopping, Flush;
  }

  /** Nobody opens the slot in the run. */
  ghost predicate LeavesAlone(rs: seq<Request>, w: Id, clock: int) {
    forall n | 0 <= n < |rs| :: !Opens(rs[n], w, clock)
  }

  lemma {:induction false} StaysDone(sh: Shard, rs: seq<Request>, w: Id, clock: int)
    requires ClockOf(sh, w) >= clock && !Has(sh, Slot(w, clock)) && LeavesAlone(rs, w, clock)
    ensures ClockOf(After(sh, rs), w) >= clock && !Has(After(sh, rs), Slot(w, clock))
    decreases |rs|
  {
    if rs != [] {
      StepLater(sh, rs[0]);
      assert !Opens(rs[0], w, clock) && forall n | 0 <= n < |rs| - 1 :: rs[1..][n] == rs[n + 1];
      hide Serve, Has, ClockOf;
      StaysDone(Serve(sh, rs[0]), rs[1..], w, clock);
    }
  }

  /**
   Once a round has been applied, every sync worker that waited for it is released by its next wake-up,
   whenever that is and whatever requests come before it, and the wake-up changes nothing.
   */
  lemma RoundReleasesAll(sh: Shard, clock: int, rs: seq<Request>, w: Id, expired: bool)
    requires Barrier(sh, clock).1.Applied? && w in SyncWorkers(sh) && LeavesAlone(rs, w, clock)
    ensures var now := After(Barrier(sh, clock).0, rs);
      Pass(now, w, clock, expired) ==
        (now, if now.mode == Async then Switched(now.globalClock) else Joined(now.globalClock))
  {
    RoundClocks(sh, clock);
    BarrierTakes(sh, clock);
    hide Barrier, SyncWorkers, Has, PendingAt, After;
    StaysDone(Barrier(sh, clock).0, rs, w, clock);
  }
}
