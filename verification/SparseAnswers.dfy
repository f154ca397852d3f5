/**
 What the answer to a push says about it. A push answered with success has been applied unless a
 request before lost its entry or a failed switch left it behind; runs of four or five requests from a
 new shard show both. The answer a push gets at once is always true, and over a run of clean requests
 every success is.
 */
module SparseAnswers {
  import opened SparseProtocol
  import opened SparseShard
  import opened SparseLedger
  import opened SparseFailures
  import opened SparseLosses
  import opened SparseBook

  // ----- when a push is lost -----

  ghost predicate Awaits(b: Book, i: int) { 0 <= i < |b.log| && i !in Decided(b) }

  predicate InRound(sh: Shard, s: Slot, clock: int) { s.clock == clock && s.worker in SyncWorkers(sh) }

  ghost predicate PassLosesPush(b: Book, w: Id, clock: int, i: int, k: Key) {
    Awaits(b, i) && InRound(b.sh, SlotOf(b.log[i]), clock) && PassLoses(b.sh, w, clock, k)
  }

  /** The request loses push i's entry for the key, read off the tables before it. */
  ghost predicate Loses(b: Book, r: Request, i: int, k: Key) {
    match r
    case Registering(_) => false
    case Pushing(w, clock, entries, _) =>
      && Accepts(b.sh, w, clock, entries)
      && if AppliesAtOnce(b.sh, w) then i == |b.log| && HasKey(AtOnceLoses(b.sh, entries), k)
         else PassLosesPush(BegunBook(b, w, clock, entries), w, clock, i, k)
    case Waking(w, clock, _) => PassLosesPush(b, w, clock, i, k)
    case Switching(mode, _) => Awaits(b, i) && Flushes(b.sh, mode) && FlushLoses(b.sh, SlotOf(b.log[i]), k)
  }

  lemma MovedLost(b: Book, sh: Shard, taken: seq<Slot>, loses: Slot -> bool, i: int)
    requires Ticketed(b) && Leaves(b.sh, sh, taken)
    ensures i in Move(b, sh, loses).lost <==>
      i in b.lost || (Awaits(b, i) && SlotOf(b.log[i]) in taken && loses(SlotOf(b.log[i])))
  {
    hide Has, Neat, PendingAt;
  }

  lemma PassLosesIt(b: Book, w: Id, clock: int, expired: bool, i: int, k: Key)
    requires Ticketed(b)
    ensures i in Move(b, Pass(b.sh, w, clock, expired).0, PassLosses(b.sh, w, clock, k)).lost
      <==> i in b.lost || PassLosesPush(b, w, clock, i, k)
  {
    PassLeaves(b.sh, w, clock, expired);
    ClockSlotsAre(b.sh, clock);
    LosesOnlyWhenClosing(b.sh, w, clock, k);
    hide Pass, ClockSlots, PassLoses, Move, Leaves, SyncWorkers, Closes, Ticketed;
    MovedLost(b, Pass(b.sh, w, clock, expired).0, PassTakes(b.sh, w, clock), PassLosses(b.sh, w, clock, k), i);
  }

  lemma LosesOnlyWhenClosing(sh: Shard, w: Id, clock: int, k: Key)
    ensures PassLoses(sh, w, clock, k) ==> Closes(sh, w, clock)
  {
    hide BarrierDrops, Closes;
  }

  /** What a request loses is what the book then lists as lost. */
  lemma EnterLoses(b: Book, r: Request, i: int, k: Key)
    requires Ticketed(b)
    ensures i in Enter(b, r, k).lost <==> i in b.lost || Loses(b, r, i, k)
  {
    match r
    case Registering(_) =>
    case Pushing(w, clock, entries, expired) => PushLoses(b, w, clock, entries, expired, i, k);
    case Waking(w, clock, expired) =>
      PassLosesIt(b, w, clock, expired, i, k);
      hide Move, Pass, PassLoses, PassLosesPush, Ticketed;
      SameMove(b, Serve(b.sh, r), s => PassLoses(b.sh, w, clock, k), PassLosses(b.sh, w, clock, k));
    case Switching(mode, w) =>
      var taken := SwitchLeaves(b.sh, mode, w);
      hide Move, SetMode, Ticketed, Leaves, AllSlots, FlushDrops, Stopping;
      MovedLost(b, Serve(b.sh, r), taken, SwitchLosses(b.sh, mode, k), i);
      SameMove(b, Serve(b.sh, r), s => Flushes(b.sh, mode) && FlushLoses(b.sh, s, k), SwitchLosses(b.sh, mode, k));
  }

  lemma PushLoses(b: Book, w: Id, clock: int, entries: seq<Entry>, expired: bool, i: int, k: Key)
    requires Ticketed(b)
    ensures var r := Pushing(w, clock, entries, expired);
      i in Enter(b, r, k).lost <==> i in b.lost || Loses(b, r, i, k)
  {
    var next := Push(b.sh, w, clock, entries, expired).0;
    NeatSlot(b.sh, Slot(w, clock));
    PushIs(b.sh, w, clock, entries, expired);
    hide Push, Ticketed, JoinedSlot, Begun, Neat, Pass, PassLoses, PassLosesPush, AtOnceLoses;
    if Accepts(b.sh, w, clock, entries) && !AppliesAtOnce(b.sh, w) {
      var begun := BegunBook(b, w, clock, entries);
      BegunTickets(b, w, clock, entries);
      PassLosesIt(begun, w, clock, expired, i, k);
      hide Move, Accepts, AppliesAtOnce;
      SameMove(begun, next, s => PassLoses(begun.sh, w, clock, k), PassLosses(begun.sh, w, clock, k));
    }
  }

  /** Request n of the run loses push i's entry for the key. */
  ghost predicate LosesAt(b: Book, rs: seq<Request>, n: nat, i: int, k: Key)
    requires n < |rs|
  {
    Loses(Follow(b, rs[..n], k), rs[n], i, k)
  }

  lemma EarlierLoses(b: Book, rs: seq<Request>, n: nat, i: int, k: Key)
    requires n + 1 < |rs|
    ensures LosesAt(b, rs[..|rs| - 1], n, i, k) <==> LosesAt(b, rs, n, i, k)
  {
    hide Loses, Follow;
    assert rs[..|rs| - 1][..n] == rs[..n] && rs[..|rs| - 1][n] == rs[n];
  }

  lemma LastLoses(b: Book, rs: seq<Request>, i: int, k: Key)
    requires rs != [] && Ticketed(Follow(b, rs[..|rs| - 1], k))
    ensures i in Follow(b, rs, k).lost <==> i in Follow(b, rs[..|rs| - 1], k).lost || LosesAt(b, rs, |rs| - 1, i, k)
  {
    EnterLoses(Follow(b, rs[..|rs| - 1], k), rs[|rs| - 1], i, k);
    hide Enter, Loses, Ticketed;
  }

  /** Some request of the run does. */
  ghost predicate LostWithin(b: Book, rs: seq<Request>, i: int, k: Key) {
    exists n: nat :: n < |rs| && LosesAt(b, rs, n, i, k)
  }

  lemma LostFirst(b: Book, rs: seq<Request>, n: nat, i: int, k: Key)
    requires n < |rs| && LosesAt(b, rs, n, i, k)
    ensures LostWithin(b, rs, i, k)
  {
    hide LosesAt;
  }

  lemma LostEarlier(b: Book, rs: seq<Request>, i: int, k: Key)
    requires rs != [] && LostWithin(b, rs[..|rs| - 1], i, k)
    ensures LostWithin(b, rs, i, k)
  {
    hide LosesAt;
    var n: nat :| n < |rs| - 1 && LosesAt(b, rs[..|rs| - 1], n, i, k);
    hide *;
    EarlierLoses(b, rs, n, i, k);
    LostFirst(b, rs, n, i, k);
  }

  lemma LostThen(b: Book, rs: seq<Request>, i: int, k: Key)
    requires rs != [] && LostWithin(b, rs, i, k) && !LosesAt(b, rs, |rs| - 1, i, k)
    ensures LostWithin(b, rs[..|rs| - 1], i, k)
  {
    hide LosesAt;
    var n: nat :| n < |rs| && LosesAt(b, rs, n, i, k);
    hide *;
    assert n != |rs| - 1;
    EarlierLoses(b, rs, n, i, k);
    LostFirst(b, rs[..|rs| - 1], n, i, k);
  }

  lemma LostEarlierOrLast(b: Book, rs: seq<Request>, i: int, k: Key)
    requires rs != []
    ensures LostWithin(b, rs, i, k) <==> LostWithin(b, rs[..|rs| - 1], i, k) || LosesAt(b, rs, |rs| - 1, i, k)
  {
    hide *;
    if LostWithin(b, rs[..|rs| - 1], i, k) { LostEarlier(b, rs, i, k); }
    if LosesAt(b, rs, |rs| - 1, i, k) { LostFirst(b, rs, |rs| - 1, i, k); }
    if LostWithin(b, rs, i, k) && !LosesAt(b, rs, |rs| - 1, i, k) { LostThen(b, rs, i, k); }
  }

  /** A run loses a push exactly when one of its requests does. */
  lemma {:induction false} LostExactly(mode: Mode, initial: map<Key, seq<real>>, rs: seq<Request>, i: int, k: Key)
    ensures i in Follow(Blank(mode, initial), rs, k).lost <==> LostWithin(Blank(mode, initial), rs, i, k)
    decreases |rs|
  {
    var start := Blank(mode, initial);
    if rs != [] {
      var front := rs[..|rs| - 1];
      hide *;
      BlankIsExact(mode, initial, k);
      RunTickets(start, front, k);
      LostExactly(mode, initial, front, i, k);
      LastLoses(start, rs, i, k);
      LostEarlierOrLast(start, rs, i, k);
    }
  }

  /** A request that loses a push is not clean. */
  lemma LosesIsUnclean(b: Book, r: Request, i: int, k: Key)
    requires Loses(b, r, i, k)
    ensures !Clean(b.sh, r)
  {
    DropsNothingIfClean(b.sh, r);
    hide Clean, Ticketed, AllSlots, FlushDrops, PassDrops, Begun, Accepts, AppliesAtOnce;
    match r
    case Registering(_) =>
    case Pushing(_, _, _, _) =>
    case Waking(_, _, _) =>
    case Switching(_, _) =>
  }

  // ----- what an answer says -----

  /** The answers to the wake-ups of a waiting push. */
  function AnswerTo(b: Book, i: nat, expired: bool): Reply
    requires i < |b.log|
  {
    Pass(b.sh, b.log[i].worker, b.log[i].clock, expired).1
  }

  lemma {:induction false} LogGrows(b: Book, r: Request, k: Key)
    ensures b.log <= Enter(b, r, k).log
  {
    hide Serve, Accepts, AppliesAtOnce, Begun, PassLoses, FlushLoses, AtOnceLoses, Has;
  }

  /**
   A push answered with success has been applied, for a key, exactly when it is no longer pending and
   no request of the run has lost its entry. It is still pending exactly when it was before and the
   answer does not take its slot out: on an async shard, or with a worker no longer declared sync.
   */
  lemma SuccessMeansApplied(
    mode: Mode, initial: map<Key, seq<real>>, rs: seq<Request>, i: nat, expired: bool, k: Key)
    requires i < |Follow(Blank(mode, initial), rs, k).log|
    requires Succeeds(AnswerTo(Follow(Blank(mode, initial), rs, k), i, expired))
    ensures var b := Follow(Blank(mode, initial), rs, k);
      var run := rs + [Waking(b.log[i].worker, b.log[i].clock, expired)];
      var next := Follow(Blank(mode, initial), run, k);
      && (i in next.applied <==> !Awaits(next, i) && !LostWithin(Blank(mode, initial), run, i, k))
      && (Awaits(next, i) <==> Awaits(b, i) && LeftBehind(b, i, expired))
  {
    var start := Blank(mode, initial);
    var b := Follow(start, rs, k);
    var w, clock := b.log[i].worker, b.log[i].clock;
    var r := Waking(w, clock, expired);
    BlankIsExact(mode, initial, k);
    RunTickets(start, rs, k);
    EnterTickets(b, r, k);
    LogGrows(b, r, k);
    LostExactly(mode, initial, rs + [r], i, k);
    assert (rs + [r])[..|rs|] == rs;
    assert Follow(start, rs + [r], k) == Enter(b, r, k);
    WakeAwaits(b, i, expired, k);
    SuccessTakes(b.sh, w, clock, expired);
    SuccessLeaves(b.sh, w, clock, expired);
    hide Follow, LostWithin, Exact, Pass, Has, Move, PassLoses, Neat, SyncWorkers;
  }

  /** The success does not answer for the push's own slot. */
  ghost predicate LeftBehind(b: Book, i: nat, expired: bool)
    requires i < |b.log|
  {
    var reply := AnswerTo(b, i, expired);
    reply.Switched? || (reply.Applied? && b.log[i].worker !in SyncWorkers(b.sh))
  }

  lemma SuccessTakes(sh: Shard, w: Id, clock: int, expired: bool)
    ensures var (next, reply) := Pass(sh, w, clock, expired);
      Succeeds(reply) && Has(next, Slot(w, clock)) ==> reply.Switched? || (reply.Applied? && w !in SyncWorkers(sh))
  {
    BarrierTakes(sh, clock);
    BarrierExact(sh, clock);
    hide Barrier, Has, SyncWorkers, Mergeable, Appliable;
  }

  lemma WakeAwaits(b: Book, i: nat, expired: bool, k: Key)
    requires i < |b.log| && Ticketed(b)
    ensures var s := SlotOf(b.log[i]);
      Awaits(Enter(b, Waking(s.worker, s.clock, expired), k), i) <==>
        Awaits(b, i) && Has(b.sh, s) && Has(Pass(b.sh, s.worker, s.clock, expired).0, s)
  {
    var s := SlotOf(b.log[i]);
    PassLeaves(b.sh, s.worker, s.clock, expired);
    hide Pass, PassTakes, Has, PassLoses, Neat, PendingAt;
  }

  lemma SuccessLeaves(sh: Shard, w: Id, clock: int, expired: bool)
    ensures var (next, reply) := Pass(sh, w, clock, expired);
      Has(sh, Slot(w, clock)) && (reply.Switched? || (reply.Applied? && w !in SyncWorkers(sh))) ==> Has(next, Slot(w, clock))
  {
    BarrierTakes(sh, clock);
    BarrierExact(sh, clock);
    hide Barrier, Has, SyncWorkers, PendingAt, Mergeable, Appliable;
  }

  // ----- runs whose requests are clean -----

  lemma CleanStep(sh: Shard, r: Request)
    requires PendingIsSync(sh) && Neat(sh) && Clean(sh, r)
    ensures PendingIsSync(Serve(sh, r))
  {
    match r
    case Registering(w) => RegisterSync(sh, w);
    case Pushing(w, clock, entries, expired) => PushSync(sh, w, clock, entries, expired);
    case Waking(w, clock, expired) =>
      PassLeaves(sh, w, clock, expired);
      PassModes(sh, w, clock, expired);
      hide Pass, PassTakes, Clean;
      SyncAfter(sh, Serve(sh, r), PassTakes(sh, w, clock));
    case Switching(mode, w) => SwitchSync(sh, mode, w);
  }

  lemma SyncAfter(a: Shard, b: Shard, slots: seq<Slot>)
    requires PendingIsSync(a) && SlotsGone(a, b, slots)
    requires b.mode == a.mode && b.workers == a.workers && b.workerModes == a.workerModes
    ensures PendingIsSync(b)
  {
    hide Has, PendingAt;
    forall s: Slot | Has(b, s) ensures b.mode == Sync && ModeOf(b, s.worker) == Sync && s.worker in b.workers {
      assert Has(a, s);
    }
  }

  lemma BarrierModes(sh: Shard, clock: int)
    ensures var next := Barrier(sh, clock).0;
      next.mode == sh.mode && next.workers == sh.workers && next.workerModes == sh.workerModes
  {
    var popped := GroupedIs(sh, clock);
    var grouped := Grouped(sh, clock);
    BarrierIs(sh, clock, popped, grouped);
    hide Barrier, Grouped, MergeFrom, SyncWorkers, SlotsTaken, PendingAt;
    if Merge(grouped).Merged? {
      ApplyFrame(popped, Merge(grouped).entries);
      hide Apply;
    }
  }

  lemma PassModes(sh: Shard, w: Id, clock: int, expired: bool)
    ensures var next := Pass(sh, w, clock, expired).0;
      next.mode == sh.mode && next.workers == sh.workers && next.workerModes == sh.workerModes
  {
    BarrierModes(sh, clock);
    hide Barrier;
  }

  lemma RegisterSync(sh: Shard, w: Id)
    requires PendingIsSync(sh)
    ensures PendingIsSync(Register(sh, w).0)
  {
    RegisterFrame(sh, w);
    hide Has;
  }

  lemma KnownSync(sh: Shard, w: Id)
    requires PendingIsSync(sh)
    ensures PendingIsSync(Known(sh, w))
  {
    KnownSlots(sh, w);
    hide Has;
  }

  lemma PushSync(sh: Shard, w: Id, clock: int, entries: seq<Entry>, expired: bool)
    requires PendingIsSync(sh) && Neat(sh)
    ensures PendingIsSync(Push(sh, w, clock, entries, expired).0)
  {
    var known, next := Known(sh, w), Push(sh, w, clock, entries, expired).0;
    NeatSlot(sh, Slot(w, clock));
    PushIs(sh, w, clock, entries, expired);
    KnownSync(sh, w);
    if !Accepts(sh, w, clock, entries) {
      RefusedModes(sh, w, clock, entries, expired);
    } else if AppliesAtOnce(sh, w) {
      var normalized := Merge(entries).entries;
      ApplyFrame(known, normalized);
      assert next.pending == known.pending;
      hide Push, PushNow, Apply, PendingIsSync, Known;
      SamePending(known, next);
      SyncAfter(known, next, []);
    } else {
      var begun := Begun(sh, w, clock, entries);
      BegunSync(sh, w, clock, entries);
      PassLeaves(begun, w, clock, expired);
      PassModes(begun, w, clock, expired);
      hide Push, Pass, PassTakes, Begun, PendingIsSync;
      SyncAfter(begun, next, PassTakes(begun, w, clock));
    }
  }

  lemma BegunSync(sh: Shard, w: Id, clock: int, entries: seq<Entry>)
    requires PendingIsSync(Known(sh, w)) && !AppliesAtOnce(sh, w) && JoinedSlot(sh, w, clock, entries).Merged?
    ensures PendingIsSync(Begun(sh, w, clock, entries))
  {
    OpenedSlots(Known(sh, w), w, clock, JoinedSlot(sh, w, clock, entries).entries);
    hide JoinedSlot, Has;
  }

  lemma RefusedModes(sh: Shard, w: Id, clock: int, entries: seq<Entry>, expired: bool)
    requires PendingIsSync(sh) && DistinctKeys(PendingAt(sh, Slot(w, clock))) && !Accepts(sh, w, clock, entries)
    ensures PendingIsSync(Push(sh, w, clock, entries, expired).0)
  {
    KnownSync(sh, w);
    ReadySlots(Known(sh, w), w);
    if w != 0 && clock >= 0 && AllAgree(entries) {
      JoinExact(PendingAt(sh, Slot(w, clock)), entries);
      KnownSlots(sh, w);
    } else {
      MergeFailsExactlyOnDisagreement(entries);
    }
    hide MergeFrom, Pass, PushNow, AllAgree, Has;
  }

  lemma SwitchSync(sh: Shard, mode: Mode, w: Id)
    requires PendingIsSync(sh) && Clean(sh, Switching(mode, w))
    ensures PendingIsSync(SetMode(sh, mode, w).0)
  {
    var next := SetMode(sh, mode, w).0;
    var taken := SwitchLeaves(sh, mode, w);
    if Flushes(sh, mode) {
      ModeFailsExactly(sh, mode, w);
      AllSlotsComplete(sh);
      SwitchIs(sh, mode, w);
      FlushFits(sh, Declared(sh, w), w);
      SameSlots(sh, Declared(sh, w));
      hide SetMode, AllSlots, Flush, AllFit, Stopping;
      assert forall s: Slot :: !Has(next, s);
    } else {
      SwitchModes(sh, mode, w);
      hide SetMode, Has, PendingAt;
      forall s: Slot | Has(next, s) ensures next.mode == Sync && ModeOf(next, s.worker) == Sync && s.worker in next.workers {
        assert s !in taken && Has(sh, s);
      }
    }
  }

  lemma SwitchModes(sh: Shard, mode: Mode, w: Id)
    requires !Flushes(sh, mode)
    ensures var next := SetMode(sh, mode, w).0;
      && next.workers == sh.workers && (next.mode == Sync || next.mode == sh.mode)
      && (sh.mode == Sync ==> forall v: Id | ModeOf(sh, v) == Sync :: ModeOf(next, v) == Sync)
  {
  }

  ghost predicate CleanRun(sh: Shard, rs: seq<Request>) {
    forall n | 0 <= n < |rs| :: Clean(After(sh, rs[..n]), rs[n])
  }

  lemma CleanFront(sh: Shard, rs: seq<Request>, n: nat)
    requires CleanRun(sh, rs) && n <= |rs|
    ensures CleanRun(sh, rs[..n])
  {
    hide Clean, After;
    forall m | 0 <= m < n ensures Clean(After(sh, rs[..n][..m]), rs[..n][m]) {
      assert rs[..n][..m] == rs[..m] && rs[..n][m] == rs[m];
    }
  }

  lemma {:induction false} CleanStays(mode: Mode, initial: map<Key, seq<real>>, rs: seq<Request>, k: Key)
    requires CleanRun(New(mode, initial), rs)
    ensures PendingIsSync(After(New(mode, initial), rs))
    decreases |rs|
  {
    var start, sh := Blank(mode, initial), New(mode, initial);
    if rs == [] {
      assert forall s: Slot :: !Has(sh, s);
    } else {
      var front, last := rs[..|rs| - 1], rs[|rs| - 1];
      CleanFront(sh, rs, |rs| - 1);
      CleanStays(mode, initial, front, k);
      BlankIsExact(mode, initial, k);
      RunTickets(start, front, k);
      FollowServes(start, front, k);
      assert Neat(After(sh, front)) && Clean(After(sh, front), last);
      assert front + [last] == rs;
      hide Clean, After, Serve, Follow, Ticketed, Exact, PendingIsSync, Neat;
      AfterLast(sh, front, last);
      CleanStep(After(sh, front), last);
    }
  }

  lemma NotLeftBehind(sh: Shard, w: Id, clock: int, expired: bool)
    requires PendingIsSync(sh) && Succeeds(Pass(sh, w, clock, expired).1)
    ensures !Has(Pass(sh, w, clock, expired).0, Slot(w, clock))
  {
    SuccessTakes(sh, w, clock, expired);
    PassLeaves(sh, w, clock, expired);
    BarrierExact(sh, clock);
    hide Barrier, PassTakes, PendingAt, Mergeable, Appliable;
  }

  /** Over a run of clean requests every success means that the push has been applied, at every key. */
  lemma CleanRunsAnswerTruly(
    mode: Mode, initial: map<Key, seq<real>>, rs: seq<Request>, i: nat, expired: bool, k: Key)
    requires i < |Follow(Blank(mode, initial), rs, k).log|
    requires Succeeds(AnswerTo(Follow(Blank(mode, initial), rs, k), i, expired))
    requires var b := Follow(Blank(mode, initial), rs, k);
      CleanRun(New(mode, initial), rs + [Waking(b.log[i].worker, b.log[i].clock, expired)])
    ensures var b := Follow(Blank(mode, initial), rs, k);
      i in Enter(b, Waking(b.log[i].worker, b.log[i].clock, expired), k).applied
  {
    var start, sh := Blank(mode, initial), New(mode, initial);
    var b := Follow(start, rs, k);
    var w, clock := b.log[i].worker, b.log[i].clock;
    var run := rs + [Waking(w, clock, expired)];
    assert run[..|rs|] == rs;
    assert Follow(start, run, k) == Enter(b, Waking(w, clock, expired), k);
    assert Enter(b, Waking(w, clock, expired), k).sh == Pass(b.sh, w, clock, expired).0;
    SuccessMeansApplied(mode, initial, rs, i, expired, k);
    CleanFront(sh, run, |rs|);
    CleanStays(mode, initial, rs, k);
    FollowServes(start, rs, k);
    NotLeftBehind(b.sh, w, clock, expired);
    hide Follow, Enter, Pass, After, PendingIsSync, Has, CleanRun, LosesAt;
    forall n: nat | n < |run| ensures !LosesAt(start, run, n, i, k) {
      CleanLosesNothing(mode, initial, run, n, i, k);
    }
  }

  lemma CleanLosesNothing(mode: Mode, initial: map<Key, seq<real>>, run: seq<Request>, n: nat, i: int, k: Key)
    requires n < |run| && CleanRun(New(mode, initial), run)
    ensures !LosesAt(Blank(mode, initial), run, n, i, k)
  {
    var start := Blank(mode, initial);
    FollowServes(start, run[..n], k);
    hide Clean, Loses, Follow, After;
    if LosesAt(start, run, n, i, k) {
      LosesIsUnclean(Follow(start, run[..n], k), run[n], i, k);
    }
  }

  /** A push that is accepted and at once answered with success has been applied, at every key. */
  lemma FirstAnswerIsTrue(
    mode: Mode, initial: map<Key, seq<real>>, rs: seq<Request>, w: Id, clock: int, entries: seq<Entry>,
    expired: bool, k: Key)
    requires var sh := Follow(Blank(mode, initial), rs, k).sh;
      Accepts(sh, w, clock, entries) && Succeeds(Push(sh, w, clock, entries, expired).1)
    ensures var b := Follow(Blank(mode, initial), rs, k);
      |b.log| in Enter(b, Pushing(w, clock, entries, expired), k).applied
  {
    var start := Blank(mode, initial);
    var b := Follow(start, rs, k);
    hide *;
    BlankIsExact(mode, initial, k);
    RunTickets(start, rs, k);
    FirstAnswerAt(b, w, clock, entries, expired, k);
  }

  lemma FirstAnswerAt(b: Book, w: Id, clock: int, entries: seq<Entry>, expired: bool, k: Key)
    requires Ticketed(b) && Accepts(b.sh, w, clock, entries) && Succeeds(Push(b.sh, w, clock, entries, expired).1)
    ensures |b.log| in Enter(b, Pushing(w, clock, entries, expired), k).applied
  {
    var r := Pushing(w, clock, entries, expired);
    assert |b.log| !in b.lost;
    NeatSlot(b.sh, Slot(w, clock));
    hide *;
    PushLoses(b, w, clock, entries, expired, |b.log|, k);
    EnterTickets(b, r, k);
    SuccessLosesNothing(b, w, clock, entries, expired, k);
    SuccessDecides(b, w, clock, entries, expired, k);
    DecidedApplied(Enter(b, r, k), |b.log|);
  }

  lemma DecidedApplied(b: Book, i: int)
    requires i in Decided(b) && i !in b.lost
    ensures i in b.applied
  {
  }

  lemma SuccessLosesNothing(b: Book, w: Id, clock: int, entries: seq<Entry>, expired: bool, k: Key)
    requires DistinctKeys(PendingAt(b.sh, Slot(w, clock))) && Accepts(b.sh, w, clock, entries)
    requires Succeeds(Push(b.sh, w, clock, entries, expired).1)
    ensures !Loses(b, Pushing(w, clock, entries, expired), |b.log|, k)
  {
    DropsAreRaised(b.sh, Pushing(w, clock, entries, expired));
    hide Push, Begun, Accepts, MergeFrom, PassDrops, Unapplied, JoinedSlot, SyncWorkers;
  }

  lemma SuccessDecides(b: Book, w: Id, clock: int, entries: seq<Entry>, expired: bool, k: Key)
    requires DistinctKeys(PendingAt(b.sh, Slot(w, clock))) && Accepts(b.sh, w, clock, entries)
    requires Succeeds(Push(b.sh, w, clock, entries, expired).1)
    requires Ticketed(Enter(b, Pushing(w, clock, entries, expired), k))
    ensures |b.log| in Decided(Enter(b, Pushing(w, clock, entries, expired), k))
  {
    PushIs(b.sh, w, clock, entries, expired);
    assert Enter(b, Pushing(w, clock, entries, expired), k).log == b.log + [Record(w, clock, entries)];
    if !AppliesAtOnce(b.sh, w) {
      SuccessTakes(Begun(b.sh, w, clock, entries), w, clock, expired);
      BegunFresh(b.sh, w, clock, entries);
    }
    hide Push, Apply, Begun, Accepts, Merge, Pass, Has, SyncWorkers, Neat;
  }

  lemma BegunFresh(sh: Shard, w: Id, clock: int, entries: seq<Entry>)
    requires !AppliesAtOnce(sh, w) && JoinedSlot(sh, w, clock, entries).Merged?
    ensures var begun := Begun(sh, w, clock, entries);
      begun.mode == Sync && w in SyncWorkers(begun)
  {
  }

  // ----- successes that are not true -----

  /** Workers 1 and 2 on a sync shard with nothing pending and nothing applied. */
  ghost predicate Idle(sh: Shard) {
    && sh.mode == Sync && sh.workers == {1, 2} && SyncWorkers(sh) == {1, 2}
    && (forall s: Slot :: !Has(sh, s)) && (forall w: Id :: ClockOf(sh, w) == -1)
  }

  function BothOpen(sh: Shard, x: Entry, y: Entry): Shard {
    Opened(Opened(sh, 1, 0, [x]), 2, 0, [y])
  }

  lemma OneOpen(sh: Shard, x: Entry)
    requires Idle(sh)
    ensures var waiting := Opened(sh, 1, 0, [x]);
      && waiting.mode == Sync && SyncWorkers(waiting) == {1, 2} && waiting.values == sh.values
      && waiting.appliedClock == sh.appliedClock && PendingAt(waiting, Slot(1, 0)) == [x]
      && (forall s: Slot :: Has(waiting, s) <==> s == Slot(1, 0))
  {
    OpenedSlots(sh, 1, 0, [x]);
    OpenedStays(sh, 1, 0, [x]);
    hide Opened, SyncWorkers, Has, PendingAt, ClockOf;
  }

  lemma BothOpenAre(sh: Shard, x: Entry, y: Entry)
    requires Idle(sh)
    ensures var full := BothOpen(sh, x, y);
      && full.mode == Sync && full.values == sh.values && SyncWorkers(full) == {1, 2}
      && full.appliedClock == sh.appliedClock
      && PendingAt(full, Slot(1, 0)) == [x] && PendingAt(full, Slot(2, 0)) == [y]
      && (forall s: Slot :: Has(full, s) <==> s == Slot(1, 0) || s == Slot(2, 0))
  {
    var waiting := Opened(sh, 1, 0, [x]);
    OneOpen(sh, x);
    OpenedSlots(waiting, 2, 0, [y]);
    OpenedStays(waiting, 2, 0, [y]);
    hide Opened, SyncWorkers, Has, PendingAt, Idle;
    assert Slot(1, 0) != Slot(2, 0);
  }

  lemma FirstWaits(sh: Shard, x: Entry)
    requires Idle(sh)
    ensures Push(sh, 1, 0, [x], false) == (Opened(sh, 1, 0, [x]), Waiting)
  {
    OneOpen(sh, x);
    SinglePush(sh, 1, 0, x, false);
    hide Opened, SyncWorkers, Has, Push, Barrier;
    assert 2 in SyncWorkers(Opened(sh, 1, 0, [x])) && !Has(Opened(sh, 1, 0, [x]), Slot(2, 0));
  }

  /** The second of two pushes at clock 0 closes the barrier. */
  lemma SecondCloses(sh: Shard, x: Entry, y: Entry, expired: bool)
    requires Idle(sh)
    ensures Push(Opened(sh, 1, 0, [x]), 2, 0, [y], expired) == Barrier(BothOpen(sh, x, y), 0)
  {
    OneOpen(sh, x);
    BothOpenAre(sh, x, y);
    SinglePush(Opened(sh, 1, 0, [x]), 2, 0, y, expired);
    var full := BothOpen(sh, x, y);
    hide Opened, SyncWorkers, Has, Push, Barrier, PendingAt, Idle;
    assert Ready(full, 0);
  }

  /** The shard after two pushes that disagree: idle as before, and both contributions are gone. */
  function Disagreed(initial: map<Key, seq<real>>, x: Entry, y: Entry): Shard {
    Push(Push(TwoWorkers(initial), 1, 0, [x], false).0, 2, 0, [y], false).0
  }

  lemma DisagreedIs(initial: map<Key, seq<real>>, x: Entry, y: Entry)
    requires !Agree(x, y)
    ensures var sh := Disagreed(initial, x, y); Idle(sh) && sh.values == initial
  {
    var start := TwoWorkers(initial);
    TwoWorkersAre(initial);
    hide TwoWorkers, Push, Barrier, Opened, Has, PendingAt, SyncWorkers, ClockOf, FirstApplied, Agree, Grouped, BothOpen;
    FirstWaits(start, x);
    SecondCloses(start, x, y, false);
    BothOpenAre(start, x, y);
    var full := BothOpen(start, x, y);
    assert x in PendingAt(full, Slot(1, 0)) && y in PendingAt(full, Slot(2, 0));
    DisagreementLosesWork(full, 0, 1, 2, x, y);
    BarrierLeaves(full, 0);
    BothModes(start, x, y);
    SameClocks(start, Barrier(full, 0).0);
  }

  lemma BothModes(sh: Shard, x: Entry, y: Entry)
    ensures var full := BothOpen(sh, x, y); full.workers == sh.workers && full.workerModes == sh.workerModes
  {
  }

  lemma SameClocks(a: Shard, b: Shard)
    requires b.appliedClock == a.appliedClock && b.mode == a.mode
    requires b.workers == a.workers && b.workerModes == a.workerModes
    ensures SyncWorkers(b) == SyncWorkers(a) && forall w: Id :: ClockOf(b, w) == ClockOf(a, w)
  {
  }

  lemma NothingToFlush(sh: Shard)
    requires sh.mode == Sync && forall s: Slot :: !Has(sh, s)
    ensures AllSlots(sh) == []
  {
    AllSlotsComplete(sh);
    hide AllSlots, Has;
    if AllSlots(sh) != [] { HasMember(AllSlots(sh)); }
  }

  lemma HasMember<T>(s: seq<T>)
    requires s != []
    ensures exists x :: x in s
  {
    assert s[0] in s;
  }

  /** A switch to async with nothing pending changes no value and succeeds. */
  lemma EmptySwitch(sh: Shard)
    requires sh.mode == Sync && forall s: Slot :: !Has(sh, s)
    ensures var (next, changed) := SetMode(sh, Async, 0);
      changed.Changed? && next.mode == Async && next.values == sh.values && next.pending == sh.pending
  {
    NothingToFlush(sh);
    FlushNothing(Declared(sh, 0));
    SameSlots(sh, Declared(sh, 0));
    hide AllSlots, Flush, Has;
  }

  /** The first of two disagreeing pushes is gone, and after a switch to async it is told it succeeded. */
  lemma LostYetSwitched(initial: map<Key, seq<real>>, x: Entry, y: Entry, expired: bool)
    requires !Agree(x, y)
    ensures var (next, changed) := SetMode(Disagreed(initial, x, y), Async, 0);
      && changed.Changed? && next.values == initial && !Has(next, Slot(1, 0))
      && Pass(next, 1, 0, expired) == (next, Switched(next.globalClock))
  {
    hide *;
    DisagreedIs(initial, x, y);
    IdleSwitch(Disagreed(initial, x, y), expired);
  }

  lemma IdleSwitch(sh: Shard, expired: bool)
    requires Idle(sh)
    ensures var (next, changed) := SetMode(sh, Async, 0);
      && changed.Changed? && next.values == sh.values && !Has(next, Slot(1, 0))
      && Pass(next, 1, 0, expired) == (next, Switched(next.globalClock))
  {
    EmptySwitch(sh);
    var next := SetMode(sh, Async, 0).0;
    SamePending(sh, next);
    hide SetMode, SyncWorkers, Barrier, PendingAt;
  }

  /**
   The first of two disagreeing pushes is gone, and after both workers have repeated the clock with an
   entry for another key it is told that it joined their round.
   */
  lemma LostYetJoined(initial: map<Key, seq<real>>, x: Entry, y: Entry, z: Entry, expired: bool)
    requires !Agree(x, y) && z.op == Set && z.key != x.key
    ensures var (next, reply) := Push(Push(Disagreed(initial, x, y), 1, 0, [z], false).0, 2, 0, [z], false);
      && reply.Applied? && ValueOf(next, x.key) == ValueOf(Disagreed(initial, x, y), x.key)
      && !Has(next, Slot(1, 0)) && Disagreed(initial, x, y).values == initial
      && Pass(next, 1, 0, expired) == (next, Joined(next.globalClock))
  {
    var sh := Disagreed(initial, x, y);
    DisagreedIs(initial, x, y);
    hide Disagreed, Opened, Push, Barrier, BothOpen, Agree, SyncWorkers, Has;
    FirstWaits(sh, z);
    SecondCloses(sh, z, z, false);
    BothOpenAre(sh, z, z);
    RepeatedRound(BothOpen(sh, z, z), z, x.key);
    SameValueOf(BothOpen(sh, z, z), sh, x.key);
  }

  lemma SameValueOf(a: Shard, b: Shard, k: Key)
    requires a.values == b.values
    ensures ValueOf(a, k) == ValueOf(b, k)
  {
  }

  lemma RepeatedRound(sh: Shard, z: Entry, k: Key)
    requires sh.mode == Sync && SyncWorkers(sh) == {1, 2} && z.op == Set && z.key != k
    requires PendingAt(sh, Slot(1, 0)) == [z] && PendingAt(sh, Slot(2, 0)) == [z]
    ensures var (next, reply) := Barrier(sh, 0);
      && reply.Applied? && next.mode == Sync && ValueOf(next, k) == ValueOf(sh, k)
      && ClockOf(next, 1) >= 0 && !Has(next, Slot(1, 0))
  {
    var grouped := Grouped(sh, 0);
    var popped := GroupedIs(sh, 0);
    OnlyOneGrouped(sh, z);
    hide *;
    BarrierSets(sh, z);
    BarrierTakes(sh, 0);
    BarrierModes(sh, 0);
    GroupedFrom(sh, popped, 0);
    BarrierIs(sh, 0, popped, grouped);
    AppliedBarrier(sh, popped, grouped);
    assert 1 in SyncWorkers(sh);
    OtherKeyKept(popped, grouped, z, k);
    RoundEnds(sh, Barrier(sh, 0).0, popped, grouped, k);
  }

  lemma OnlyOneGrouped(sh: Shard, z: Entry)
    requires SyncWorkers(sh) == {1, 2}
    requires PendingAt(sh, Slot(1, 0)) == [z] && PendingAt(sh, Slot(2, 0)) == [z]
    ensures forall e | e in Grouped(sh, 0) :: e == z
  {
    var popped := GroupedIs(sh, 0);
    hide Grouped, SyncWorkers, PendingAt;
  }

  lemma AppliedBarrier(sh: Shard, popped: Shard, grouped: seq<Entry>)
    requires PopAll(sh, SyncOnly(sh, Sorted(sh.workers)), 0) == (popped, grouped)
    requires Barrier(sh, 0).1.Applied? && Merge(grouped).Merged?
    ensures Barrier(sh, 0).0 == AdvanceAll(Apply(popped, Merge(grouped).entries).shard, SyncWorkers(sh), 0)
  {
    hide PopAll, SyncOnly, Sorted, SyncWorkers, Apply, MergeFrom;
  }

  lemma BarrierSets(sh: Shard, z: Entry)
    requires SyncWorkers(sh) == {1, 2} && z.op == Set
    requires PendingAt(sh, Slot(1, 0)) == [z] && PendingAt(sh, Slot(2, 0)) == [z]
    ensures Barrier(sh, 0).1.Applied? && Merge(Grouped(sh, 0)).Merged?
  {
    BarrierExact(sh, 0);
    MergeableIs(sh, 0);
    MergeFailsExactlyOnDisagreement(Grouped(sh, 0));
    hide Barrier, Grouped, SyncWorkers, PendingAt, MergeFrom, AllAgree;
    assert Mergeable(sh, 0) && Appliable(sh, 0);
  }

  lemma OtherKeyKept(sh: Shard, es: seq<Entry>, z: Entry, k: Key)
    requires Merge(es).Merged? && z.key != k && forall e | e in es :: e == z
    ensures ValueOf(Apply(sh, Merge(es).entries).shard, k) == ValueOf(sh, k)
  {
    MergeFailsExactlyOnDisagreement(es);
    hide MergeFrom, Apply;
    var merged := Merge(es).entries;
    assert forall i | 0 <= i < |es| :: es[i] in es;
    assert !HasKey(merged, k);
    ApplyLeaves(sh, merged, k);
  }

  lemma RoundEnds(sh: Shard, next: Shard, popped: Shard, grouped: seq<Entry>, k: Key)
    requires SameButPending(popped, sh) && Merge(grouped).Merged? && 1 in SyncWorkers(sh)
    requires var done := Apply(popped, Merge(grouped).entries);
      && next == AdvanceAll(done.shard, SyncWorkers(sh), 0)
      && ValueOf(done.shard, k) == ValueOf(popped, k)
    requires next.mode == sh.mode && SlotsTaken(sh, next, SyncWorkers(sh), 0)
    ensures ValueOf(next, k) == ValueOf(sh, k) && ClockOf(next, 1) >= 0 && !Has(next, Slot(1, 0))
  {
    hide Apply, MergeFrom, SyncWorkers, Has, PendingAt;
  }

  /** A failed switch leaves an entry behind, and its push is told it succeeded. */
  lemma StrandedYetSwitched(initial: map<Key, seq<real>>, x: Entry, y: Entry, expired: bool)
    requires x.op == Add && x.key in initial && |initial[x.key]| != |x.values|
    ensures var waiting := Push(Push(TwoWorkers(initial), 1, 0, [x], false).0, 2, 1, [y], false).0;
      var next := SetMode(waiting, Async, 0).0;
      && next.values == initial && PendingAt(next, Slot(2, 1)) == [y]
      && Pass(next, 2, 1, expired) == (next, Switched(next.globalClock))
  {
    SwitchStrandsWork(initial, x, y);
    hide Push, SetMode, TwoWorkers, PendingAt;
  }

  lemma {:induction false} FlushModes(sh: Shard, slots: seq<Slot>)
    ensures var next := Flush(sh, slots).shard;
      next.mode == sh.mode && next.workers == sh.workers && next.workerModes == sh.workerModes
    decreases |slots|
  {
    if slots == [] {
      FlushNothing(sh);
    } else {
      var popped := Pop(sh, slots[0]);
      ApplyFrame(popped, PendingAt(sh, slots[0]));
      hide Apply, PendingAt;
      if Apply(popped, PendingAt(sh, slots[0])).ok {
        FlushModes(FlushFirst(sh, slots[0]), slots[1..]);
      }
    }
  }

  /** After a switch of all workers to async, a switch of one other worker back makes no worker sync. */
  lemma NobodySync(sh: Shard, v: Id)
    requires sh.mode == Sync && v != 0 && v !in sh.workers
    ensures var next := SetMode(sh, Async, 0).0;
      var back := SetMode(next, Sync, v).0;
      && back == next.(mode := Sync, workerModes := next.workerModes[v := Sync])
      && SyncWorkers(back) == {}
  {
    FlushedIs(sh, 0);
    FlushModes(Declared(sh, 0), AllSlots(sh));
    hide Flush, AllSlots;
  }

  /**
   After that switch and one of a third worker back to sync, an idle barrier tells the push it left
   behind that it has been applied.
   */
  lemma StrandedYetApplied(initial: map<Key, seq<real>>, x: Entry, y: Entry, expired: bool)
    requires x.op == Add && x.key in initial && |initial[x.key]| != |x.values|
    ensures var waiting := Push(Push(TwoWorkers(initial), 1, 0, [x], false).0, 2, 1, [y], false).0;
      var back := SetMode(SetMode(waiting, Async, 0).0, Sync, 3).0;
      var (next, reply) := Pass(back, 2, 1, expired);
      && reply.Applied? && reply.applied == 0 && next.values == initial && PendingAt(next, Slot(2, 1)) == [y]
  {
    var waiting := Push(Push(TwoWorkers(initial), 1, 0, [x], false).0, 2, 1, [y], false).0;
    SwitchStrandsWork(initial, x, y);
    hide Push, SetMode, TwoWorkers, SyncWorkers;
    NobodySync(waiting, 3);
    var back := SetMode(SetMode(waiting, Async, 0).0, Sync, 3).0;
    IdleBarrier(back, 2, 1, expired);
  }

  /** A barrier without sync workers closes at once and applies nothing. */
  lemma IdleBarrier(sh: Shard, w: Id, clock: int, expired: bool)
    requires sh.mode == Sync && SyncWorkers(sh) == {} && Has(sh, Slot(w, clock))
    ensures var (next, reply) := Pass(sh, w, clock, expired);
      && reply.Applied? && reply.applied == 0 && next.values == sh.values
      && Has(next, Slot(w, clock)) && PendingAt(next, Slot(w, clock)) == PendingAt(sh, Slot(w, clock))
  {
    assert Pass(sh, w, clock, expired) == Barrier(sh, clock);
    hide *;
    BarrierTakes(sh, clock);
    StillThere(sh, Barrier(sh, clock).0, w, clock);
    NothingGrouped(sh, clock);
    EmptyBarrier(sh, clock);
  }

  lemma StillThere(sh: Shard, next: Shard, w: Id, clock: int)
    requires SlotsTaken(sh, next, SyncWorkers(sh), clock) && SyncWorkers(sh) == {} && Has(sh, Slot(w, clock))
    ensures Has(next, Slot(w, clock)) && PendingAt(next, Slot(w, clock)) == PendingAt(sh, Slot(w, clock))
  {
    hide SyncWorkers, Has, PendingAt;
  }

  lemma NothingGrouped(sh: Shard, clock: int)
    requires SyncWorkers(sh) == {}
    ensures Grouped(sh, clock) == []
  {
    var popped := GroupedIs(sh, clock);
    hide Grouped, SyncWorkers, PendingAt;
    if Grouped(sh, clock) != [] { HasMember(Grouped(sh, clock)); }
  }

  lemma EmptyBarrier(sh: Shard, clock: int)
    requires Grouped(sh, clock) == []
    ensures Barrier(sh, clock).1.Applied? && Barrier(sh, clock).1.applied == 0
    ensures Barrier(sh, clock).0.values == sh.values
  {
    var popped := GroupedIs(sh, clock);
    hide PopAll, SyncOnly, Sorted, SyncWorkers, PendingAt;
  }
}
