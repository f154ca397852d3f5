/**
 Who is sync: what a registration and a mode switch declare, and what it means for the pushes that
 follow. While every worker of a sync shard is sync, nothing is applied at a clock until every
 registered worker has pushed it.
 */
module SparseModes {
  import opened SparseProtocol
  import opened SparseShard
  import opened SparseLedger
  import opened SparseFailures
  import opened SparseLosses
  import opened SparseBook
  import opened SparseAnswers

  // ----- what is declared -----

  /** The modes are those before but for some workers, which all have the one given. */
  ghost predicate Redeclared(a: Shard, b: Shard, ws: set<Id>, mode: Mode) {
    && (forall v | v in ws :: v in b.workerModes && b.workerModes[v] == mode)
    && (forall v: Id | v !in ws ::
          (v in b.workerModes <==> v in a.workerModes) && (v in a.workerModes ==> b.workerModes[v] == a.workerModes[v]))
  }

  /**
   A targeted switch declares its worker, registered or not, also when the shard already is in that
   mode; a global one declares every registered worker if the mode is new, and otherwise nobody.
   */
  lemma SwitchDeclares(sh: Shard, mode: Mode, w: Id)
    ensures var (next, reply) := SetMode(sh, mode, w);
      && next.mode == mode && next.workers == sh.workers && (reply.Unchanged? <==> mode == sh.mode)
      && Redeclared(sh, next, if w != 0 then {w} else if mode != sh.mode then sh.workers else {}, mode)
  {
    if Flushes(sh, mode) {
      hide SetMode, Redeclared;
      FlushDeclares(sh, w);
    } else {
      OtherSwitchDeclares(sh, mode, w);
    }
  }

  lemma OtherSwitchDeclares(sh: Shard, mode: Mode, w: Id)
    requires !Flushes(sh, mode)
    ensures var (next, reply) := SetMode(sh, mode, w);
      && next.mode == mode && next.workers == sh.workers && (reply.Unchanged? <==> mode == sh.mode)
      && Redeclared(sh, next, if w != 0 then {w} else if mode != sh.mode then sh.workers else {}, mode)
  {
    hide Flush, AllSlots;
  }

  lemma FlushDeclares(sh: Shard, w: Id)
    requires sh.mode == Sync
    ensures var (next, reply) := SetMode(sh, Async, w);
      && next.mode == Async && next.workers == sh.workers && !reply.Unchanged?
      && Redeclared(sh, next, if w != 0 then {w} else sh.workers, Async)
  {
    hide *;
    DeclaredAre(sh, w);
    FlushedIs(sh, w);
    FlushModes(Declared(sh, w), AllSlots(sh));
    FlushReply(sh, w);
    SameDeclared(sh, Declared(sh, w), SetMode(sh, Async, w).0, if w != 0 then {w} else sh.workers);
  }

  lemma DeclaredAre(sh: Shard, w: Id)
    ensures var declared := Declared(sh, w);
      && declared.mode == Async && declared.workers == sh.workers
      && Redeclared(sh, declared, if w != 0 then {w} else sh.workers, Async)
  {
  }

  lemma FlushReply(sh: Shard, w: Id)
    requires sh.mode == Sync
    ensures !SetMode(sh, Async, w).1.Unchanged?
  {
    hide Flush, AllSlots, Declare;
  }

  lemma SameDeclared(sh: Shard, a: Shard, b: Shard, ws: set<Id>)
    requires Redeclared(sh, a, ws, Async) && b.workerModes == a.workerModes
    ensures Redeclared(sh, b, ws, Async)
  {
  }

  /** A registration declares the shard's mode and keeps the worker's pending work and clock. */
  lemma RegistrationDeclares(sh: Shard, w: Id)
    requires w != 0
    ensures var (next, reply) := Register(sh, w);
      && next.mode == sh.mode && next.workers == sh.workers + {w} && Redeclared(sh, next, {w}, sh.mode)
      && reply == Registered(sh.globalClock) && SameData(next, sh)
      && (forall v: Id :: ClockOf(next, v) == ClockOf(sh, v) && PendingOf(next, v) == PendingOf(sh, v))
      && w in next.appliedClock && w in next.pending
  {
  }

  // ----- a sync shard waits for all its workers -----

  ghost predicate SyncAll(sh: Shard) {
    sh.mode == Sync && forall v | v in sh.workers :: ModeOf(sh, v) == Sync
  }

  /** After a global switch from async to sync every registered worker is sync. */
  lemma SwitchedToSync(sh: Shard)
    requires sh.mode == Async
    ensures var next := SetMode(sh, Sync, 0).0;
      SyncAll(next) && next.workers == sh.workers && SameData(next, sh) && next.pending == sh.pending
  {
    SwitchDeclares(sh, Sync, 0);
  }

  /** Every worker has the clock pending, or pushes it with this request. */
  ghost predicate EveryonePushed(sh: Shard, r: Request, clock: int) {
    forall u | u in sh.workers :: Has(sh, Slot(u, clock)) || Opens(r, u, clock)
  }

  predicate Opens(r: Request, u: Id, clock: int) {
    r.Pushing? && r.worker == u && r.clock == clock
  }

  predicate Resyncs(r: Request) { !(r.Switching? && r.mode == Async) }

  /** Nothing applied and every slot still there; or the round of a clock that everyone has pushed. */
  ghost predicate OneRound(sh: Shard, next: Shard, r: Request) {
    || (SameData(next, sh) && forall s: Slot | Has(sh, s) :: Has(next, s))
    || exists clock :: EveryonePushed(sh, r, clock) && forall s: Slot | Has(sh, s) && s.clock != clock :: Has(next, s)
  }

  ghost predicate WaitsFor(sh: Shard, next: Shard, r: Request) {
    && SyncAll(next) && sh.workers <= next.workers
    && (forall s: Slot | Has(next, s) :: Has(sh, s) || Opens(r, s.worker, s.clock))
    && OneRound(sh, next, r)
  }

  /** A request that leaves data and slots alone and the modes in order. */
  lemma QuietWaits(sh: Shard, next: Shard, r: Request)
    requires SyncAll(next) && sh.workers <= next.workers && SameData(next, sh) && SlotsGone(sh, next, [])
    ensures WaitsFor(sh, next, r)
  {
    hide Has, PendingAt;
  }

  lemma PassWaits(sh: Shard, begun: Shard, r: Request, w: Id, clock: int, expired: bool)
    requires SyncAll(begun) && sh.workers <= begun.workers && SameData(begun, sh)
    requires forall s: Slot :: Has(begun, s) <==> Has(sh, s) || (r.Pushing? && s == Slot(r.worker, r.clock))
    ensures WaitsFor(sh, Pass(begun, w, clock, expired).0, r)
  {
    hide *;
    var next := Pass(begun, w, clock, expired).0;
    PassLeaves(begun, w, clock, expired);
    PassModes(begun, w, clock, expired);
    SameSyncAll(begun, next);
    if Closes(begun, w, clock) {
      ClosedRound(sh, begun, next, r, w, clock);
    } else {
      NotClosed(begun, w, clock, expired);
      OpenRound(sh, begun, r);
    }
  }

  lemma SameSyncAll(a: Shard, b: Shard)
    requires b.mode == a.mode && b.workers == a.workers && b.workerModes == a.workerModes
    ensures SyncAll(a) ==> SyncAll(b)
  {
  }

  lemma NotClosed(sh: Shard, w: Id, clock: int, expired: bool)
    requires !Closes(sh, w, clock)
    ensures Pass(sh, w, clock, expired).0 == sh
  {
    hide Barrier, Ready, Has;
  }

  lemma OpenRound(sh: Shard, begun: Shard, r: Request)
    requires SyncAll(begun) && sh.workers <= begun.workers && SameData(begun, sh)
    requires forall s: Slot :: Has(begun, s) <==> Has(sh, s) || (r.Pushing? && s == Slot(r.worker, r.clock))
    ensures WaitsFor(sh, begun, r)
  {
    hide SyncAll, Has, SameData;
  }

  lemma ClosedRound(sh: Shard, begun: Shard, next: Shard, r: Request, w: Id, clock: int)
    requires SyncAll(begun) && SyncAll(next) && sh.workers <= begun.workers && next.workers == begun.workers
    requires forall s: Slot :: Has(begun, s) <==> Has(sh, s) || (r.Pushing? && s == Slot(r.worker, r.clock))
    requires Closes(begun, w, clock) && Leaves(begun, next, PassTakes(begun, w, clock))
    ensures WaitsFor(sh, next, r)
  {
    ClockSlotsAre(begun, clock);
    forall u | u in sh.workers ensures Has(sh, Slot(u, clock)) || Opens(r, u, clock) {
      assert u in SyncWorkers(begun);
      assert Has(begun, Slot(u, clock));
    }
    hide SyncAll, Has, PendingAt, ClockSlots, SyncWorkers, Ready;
    assert EveryonePushed(sh, r, clock);
    assert forall s: Slot | Has(begun, s) && s.clock != clock :: Has(next, s);
  }

  lemma EnrolledSync(sh: Shard, w: Id)
    requires SyncAll(sh)
    ensures SyncAll(Enroll(sh, w)) && SameData(Enroll(sh, w), sh)
    ensures forall s: Slot :: Has(Enroll(sh, w), s) == Has(sh, s) && PendingAt(Enroll(sh, w), s) == PendingAt(sh, s)
  {
  }

  lemma PushWaits(sh: Shard, w: Id, clock: int, entries: seq<Entry>, expired: bool)
    requires SyncAll(sh)
    ensures WaitsFor(sh, Push(sh, w, clock, entries, expired).0, Pushing(w, clock, entries, expired))
  {
    var r := Pushing(w, clock, entries, expired);
    var next := Push(sh, w, clock, entries, expired).0;
    var known := Known(sh, w);
    EnrolledSync(sh, w);
    KnownSlots(sh, w);
    ReadySlots(known, w);
    hide Pass, MergeFrom, Enroll;
    if w == 0 || clock < 0 || Merge(entries).MergeConflict? {
      QuietWaits(sh, sh, r);
    } else if JoinedSlot(known, w, clock, entries).MergeConflict? {
      QuietWaits(sh, known.(pending := known.pending[w := PendingOf(known, w)]), r);
    } else {
      var current := JoinedSlot(known, w, clock, entries).entries;
      PushUnfolds(sh, w, clock, entries, Merge(entries).entries, current, expired);
      OpenedWaits(sh, known, r, w, clock, current);
      PassWaits(sh, Opened(known, w, clock, current), r, w, clock, expired);
    }
  }

  lemma OpenedWaits(sh: Shard, known: Shard, r: Request, w: Id, clock: int, current: seq<Entry>)
    requires SyncAll(known) && sh.workers <= known.workers && SameData(known, sh)
    requires forall s: Slot :: Has(known, s) == Has(sh, s)
    ensures var begun := Opened(known, w, clock, current);
      && SyncAll(begun) && sh.workers <= begun.workers && SameData(begun, sh)
      && (forall s: Slot :: Has(begun, s) <==> Has(sh, s) || s == Slot(w, clock))
  {
    OpenedSlots(known, w, clock, current);
    hide Has, PendingAt;
  }

  /** Any request but a switch to async leaves the shard waiting for all its workers. */
  lemma StepWaits(sh: Shard, r: Request)
    requires SyncAll(sh) && Resyncs(r)
    ensures WaitsFor(sh, Serve(sh, r), r)
  {
    match r
    case Registering(w) =>
      EnrolledSync(sh, w);
      RegisterFrame(sh, w);
      QuietWaits(sh, Register(sh, w).0, r);
    case Pushing(w, clock, entries, expired) => PushWaits(sh, w, clock, entries, expired);
    case Waking(w, clock, expired) => PassWaits(sh, sh, r, w, clock, expired);
    case Switching(_, w) =>
      SwitchDeclares(sh, Sync, w);
      SamePending(sh, SetMode(sh, Sync, w).0);
      QuietWaits(sh, SetMode(sh, Sync, w).0, r);
  }

  // ----- over runs -----

  /** The worker has the clock pending at the start of the run, or pushes it in the run. */
  ghost predicate Pushes(sh: Shard, rs: seq<Request>, u: Id, clock: int) {
    Has(sh, Slot(u, clock)) || exists n :: 0 <= n < |rs| && Opens(rs[n], u, clock)
  }

  ghost predicate AllPush(sh: Shard, rs: seq<Request>, clock: int) {
    forall u | u in sh.workers :: Pushes(sh, rs, u, clock)
  }

  ghost predicate AllResync(rs: seq<Request>) {
    forall n | 0 <= n < |rs| :: Resyncs(rs[n])
  }

  lemma PushesFirst(sh: Shard, rs: seq<Request>, u: Id, clock: int)
    requires rs != [] && WaitsFor(sh, Serve(sh, rs[0]), rs[0])
    ensures Pushes(Serve(sh, rs[0]), rs[1..], u, clock) ==> Pushes(sh, rs, u, clock)
    ensures Has(sh, Slot(u, clock)) || Opens(rs[0], u, clock) ==> Pushes(sh, rs, u, clock)
  {
    hide Serve, Has, OneRound, SyncAll;
    var next, rest := Serve(sh, rs[0]), rs[1..];
    if Pushes(next, rest, u, clock) && !Has(next, Slot(u, clock)) {
      var n :| 0 <= n < |rest| && Opens(rest[n], u, clock);
      assert Opens(rs[n + 1], u, clock);
    }
  }

  /**
   From a sync shard whose workers all are sync, over any requests but switches to async: while some
   registered worker has not pushed a clock, every slot of that clock stays pending.
   */
  lemma {:induction false} NothingTakenBeforeAll(sh: Shard, rs: seq<Request>, u: Id, clock: int, s: Slot)
    requires SyncAll(sh) && AllResync(rs) && u in sh.workers && !Pushes(sh, rs, u, clock)
    requires s.clock == clock && Has(sh, s)
    ensures Has(After(sh, rs), s)
    decreases |rs|
  {
    if rs != [] {
      var next, rest := Serve(sh, rs[0]), rs[1..];
      assert Resyncs(rs[0]) && forall n | 0 <= n < |rest| :: rest[n] == rs[n + 1];
      StepWaits(sh, rs[0]);
      PushesFirst(sh, rs, u, clock);
      hide Serve, Has, Pushes;
      assert !Has(sh, Slot(u, clock)) && !Opens(rs[0], u, clock);
      assert !EveryonePushed(sh, rs[0], clock);
      assert Has(next, s);
      NothingTakenBeforeAll(next, rest, u, clock, s);
    }
  }

  /** If anything has been applied, some clock has been pushed by every registered worker. */
  lemma {:induction false} NothingAppliedBeforeAll(sh: Shard, rs: seq<Request>)
    requires SyncAll(sh) && AllResync(rs)
    ensures SyncAll(After(sh, rs)) && sh.workers <= After(sh, rs).workers
    ensures SameData(After(sh, rs), sh) || exists clock :: AllPush(sh, rs, clock)
    decreases |rs|
  {
    if rs != [] {
      var next, rest := Serve(sh, rs[0]), rs[1..];
      assert Resyncs(rs[0]) && forall n | 0 <= n < |rest| :: rest[n] == rs[n + 1];
      StepWaits(sh, rs[0]);
      NothingAppliedBeforeAll(next, rest);
      forall u, clock
        ensures Pushes(next, rest, u, clock) ==> Pushes(sh, rs, u, clock)
        ensures Has(sh, Slot(u, clock)) || Opens(rs[0], u, clock) ==> Pushes(sh, rs, u, clock)
      {
        PushesFirst(sh, rs, u, clock);
      }
      hide Serve, Has, Pushes, After, SyncAll;
      if !SameData(next, sh) {
        var clock :| EveryonePushed(sh, rs[0], clock);
        assert AllPush(sh, rs, clock);
      } else if !SameData(After(next, rest), next) {
        var clock :| AllPush(next, rest, clock);
        assert AllPush(sh, rs, clock);
      }
    }
  }

  /**
   A push to such a shard gets no success while somebody has not pushed its clock, then or later in the
   run; if it was accepted its slot stays pending for the whole run.
   */
  lemma PushIsHeld(
    sh: Shard, w: Id, clock: int, entries: seq<Entry>, expired: bool, rs: seq<Request>, u: Id)
    requires SyncAll(sh) && AllResync(rs) && u in sh.workers
    requires !Pushes(sh, [Pushing(w, clock, entries, expired)] + rs, u, clock)
    ensures var (next, reply) := Push(sh, w, clock, entries, expired);
      && !Succeeds(reply)
      && (reply == Waiting || reply == Failed(BarrierTimeout) ==> Has(After(next, rs), Slot(w, clock)))
  {
    var r := Pushing(w, clock, entries, expired);
    var (next, reply) := Push(sh, w, clock, entries, expired);
    var run := [r] + rs;
    assert run[0] == r && run[1..] == rs;
    StepWaits(sh, r);
    PushesFirst(sh, run, u, clock);
    FirstReply(sh, w, clock, entries, expired, u);
    hide Push, Has, Pushes;
    if reply == Waiting || reply == Failed(BarrierTimeout) {
      NothingTakenBeforeAll(next, rs, u, clock, Slot(w, clock));
    }
  }

  lemma FirstReply(sh: Shard, w: Id, clock: int, entries: seq<Entry>, expired: bool, u: Id)
    requires SyncAll(sh) && u in sh.workers && !Has(sh, Slot(u, clock)) && u != w
    ensures var (next, reply) := Push(sh, w, clock, entries, expired);
      && !Succeeds(reply)
      && (reply == Waiting || reply == Failed(BarrierTimeout) ==> Has(next, Slot(w, clock)))
  {
    var known := Known(sh, w);
    EnrolledSync(sh, w);
    hide Pass, MergeFrom, Enroll, Barrier;
    if w != 0 && clock >= 0 && Merge(entries).Merged? && JoinedSlot(known, w, clock, entries).Merged? {
      var current := JoinedSlot(known, w, clock, entries).entries;
      PushUnfolds(sh, w, clock, entries, Merge(entries).entries, current, expired);
      var begun := Opened(known, w, clock, current);
      OpenedWaits(known, known, Pushing(w, clock, entries, expired), w, clock, current);
      OpenedSlots(known, w, clock, current);
      assert u in SyncWorkers(begun) && !Has(begun, Slot(u, clock));
      NotReady(begun, w, clock, expired);
    }
  }

  lemma NotReady(sh: Shard, w: Id, clock: int, expired: bool)
    requires sh.mode == Sync && Has(sh, Slot(w, clock)) && !Ready(sh, clock)
    ensures Pass(sh, w, clock, expired) == (sh, if expired then Failed(BarrierTimeout) else Waiting)
  {
    hide Ready, Barrier;
  }

  /**
   A global switch from async to sync and any run after it without a switch back: nothing is applied
   until every worker registered at the switch has a clock pending or has pushed it since.
   */
  lemma SwitchMakesAllWait(sh: Shard, rs: seq<Request>)
    requires sh.mode == Async && AllResync(rs)
    ensures var next := SetMode(sh, Sync, 0).0;
      SameData(After(next, rs), sh) || exists clock :: AllPush(sh, rs, clock)
  {
    var next := SetMode(sh, Sync, 0).0;
    SwitchedToSync(sh);
    SamePending(sh, next);
    NothingAppliedBeforeAll(next, rs);
    hide After, SetMode, SyncAll, Has, PendingAt;
    if !SameData(After(next, rs), next) {
      var clock :| AllPush(next, rs, clock);
      assert forall u | u in sh.workers :: Pushes(next, rs, u, clock);
      assert AllPush(sh, rs, clock);
    }
  }
}
