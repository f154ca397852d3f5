/**
 What became of each accepted push. For one key, a book lists the accepted pushes and which of them
 have been applied and which lost; the others are pending. The book is exact for every run: a key that
 is only added to holds its initial value plus the pushes the book lists as applied.
 */
module SparseBook {
  import opened SparseProtocol
  import opened SparseShard
  import opened SparseLedger
  import opened SparseFailures
  import opened SparseLosses

  datatype Book = Book(sh: Shard, log: seq<Record>, applied: set<int>, lost: set<int>)

  function Decided(b: Book): set<int> { b.applied + b.lost }

  // ----- which slots a request loses, for one key -----

  /** The slot at which a flush stops, if it does. */
  function Stopping(sh: Shard, slots: seq<Slot>): seq<Slot>
    decreases |slots|
  {
    if slots == [] then []
    else if !Apply(sh, PendingAt(sh, slots[0])).ok then [slots[0]]
    else Stopping(FlushFirst(sh, slots[0]), slots[1..])
  }

  ghost predicate PassLoses(sh: Shard, w: Id, clock: int, k: Key) {
    HasKey(PassDrops(sh, w, clock), k)
  }

  ghost predicate FlushLoses(sh: Shard, s: Slot, k: Key) {
    Stopping(sh, AllSlots(sh)) == [s] && HasKey(FlushDrops(sh, AllSlots(sh)), k)
  }

  predicate Flushes(sh: Shard, mode: Mode) { sh.mode == Sync && mode == Async }

  // ----- keeping the book -----

  /** Pushes whose slot has left the table are decided. */
  ghost function Move(b: Book, sh: Shard, loses: Slot -> bool): Book {
    var gone := set i | 0 <= i < |b.log| && i !in Decided(b) && !Has(sh, SlotOf(b.log[i]));
    Book(sh, b.log, b.applied + (set i | i in gone && !loses(SlotOf(b.log[i]))),
         b.lost + (set i | i in gone && loses(SlotOf(b.log[i]))))
  }

  /** A push that is applied or refused at once. */
  ghost function DecideAtOnce(b: Book, sh: Shard, r: Record, losing: bool): Book {
    var i := |b.log|;
    Book(sh, b.log + [r], if losing then b.applied else b.applied + {i}, if losing then b.lost + {i} else b.lost)
  }

  ghost function AtOnceLoses(sh: Shard, entries: seq<Entry>): seq<Entry> {
    match Merge(entries)
    case MergeConflict => []
    case Merged(normalized) => Unapplied(sh, normalized)
  }

  ghost function Enter(b: Book, r: Request, k: Key): Book {
    var next := Serve(b.sh, r);
    match r
    case Registering(_) => b.(sh := next)
    case Pushing(w, clock, entries, _) =>
      var record := Record(w, clock, entries);
      if !Accepts(b.sh, w, clock, entries) then b.(sh := next)
      else if AppliesAtOnce(b.sh, w) then DecideAtOnce(b, next, record, HasKey(AtOnceLoses(b.sh, entries), k))
      else
        var begun := Begun(b.sh, w, clock, entries);
        Move(Book(begun, b.log + [record], b.applied, b.lost), next, s => PassLoses(begun, w, clock, k))
    case Waking(w, clock, _) => Move(b, next, s => PassLoses(b.sh, w, clock, k))
    case Switching(mode, _) => Move(b, next, s => Flushes(b.sh, mode) && FlushLoses(b.sh, s, k))
  }

  ghost function Follow(b: Book, rs: seq<Request>, k: Key): Book
    decreases |rs|
  {
    if rs == [] then b else Enter(Follow(b, rs[..|rs| - 1], k), rs[|rs| - 1], k)
  }

  function Blank(mode: Mode, initial: map<Key, seq<real>>): Book {
    Book(New(mode, initial), [], {}, {})
  }

  // ----- every accepted push is applied, lost or pending -----

  ghost predicate Neat(sh: Shard) {
    forall s: Slot | Has(sh, s) :: DistinctKeys(PendingAt(sh, s))
  }

  ghost predicate Ticketed(b: Book) {
    && Neat(b.sh) && b.applied !! b.lost
    && (forall i | i in Decided(b) :: 0 <= i < |b.log|)
    && (forall i | 0 <= i < |b.log| && i !in Decided(b) :: Has(b.sh, SlotOf(b.log[i])))
  }

  /** Slots that leave the table. */
  ghost predicate Leaves(a: Shard, b: Shard, slots: seq<Slot>) {
    SlotsGone(a, b, slots) && DistinctSlots(slots) && forall s | s in slots :: Has(a, s)
  }

  lemma NeatAfter(a: Shard, b: Shard, slots: seq<Slot>)
    requires Neat(a) && SlotsGone(a, b, slots)
    ensures Neat(b)
  {
    hide Has, PendingAt, DistinctKeys;
    forall s: Slot | Has(b, s) ensures DistinctKeys(PendingAt(b, s)) {
      assert Has(a, s) && PendingAt(b, s) == PendingAt(a, s);
    }
  }

  lemma MoveTickets(b: Book, sh: Shard, slots: seq<Slot>, loses: Slot -> bool)
    requires Ticketed(b) && SlotsGone(b.sh, sh, slots)
    ensures Ticketed(Move(b, sh, loses))
  {
    NeatAfter(b.sh, sh, slots);
    hide Has, Neat, PendingAt;
  }

  // ----- what each request takes out -----

  lemma BarrierTakes(sh: Shard, clock: int)
    ensures SlotsTaken(sh, Barrier(sh, clock).0, SyncWorkers(sh), clock)
  {
    var popped := GroupedIs(sh, clock);
    BarrierIs(sh, clock, popped, Grouped(sh, clock));
    var next := Barrier(sh, clock).0;
    if Merge(Grouped(sh, clock)).Merged? {
      ApplyFrame(popped, Merge(Grouped(sh, clock)).entries);
    }
    assert next.pending == popped.pending;
    hide Barrier, Grouped, MergeFrom, Apply;
    SlotsTakenFrame(sh, popped, next, clock);
  }

  function ClockSlots(sh: Shard, clock: int): seq<Slot> {
    AtClock(SyncOnly(sh, Sorted(sh.workers)), clock)
  }

  lemma ClockSlotsAre(sh: Shard, clock: int)
    ensures DistinctSlots(ClockSlots(sh, clock))
    ensures forall s :: s in ClockSlots(sh, clock) <==> s.clock == clock && s.worker in SyncWorkers(sh)
    ensures forall i, j | 0 <= i < j < |ClockSlots(sh, clock)| ::
              ClockSlots(sh, clock)[i].worker < ClockSlots(sh, clock)[j].worker
  {
    var ws := SyncOnly(sh, Sorted(sh.workers));
    SyncOnlyIncreasing(sh, Sorted(sh.workers));
    assert forall w :: w in ws <==> w in SyncWorkers(sh);
    hide Sorted, SyncOnly, SyncWorkers;
    forall s ensures s in ClockSlots(sh, clock) <==> s.clock == clock && s.worker in ws {
      if s.clock == clock && s.worker in ws {
        var i :| 0 <= i < |ws| && ws[i] == s.worker;
        assert AtClock(ws, clock)[i] == s;
      }
    }
  }

  lemma TakenLeaves(sh: Shard, next: Shard, clock: int)
    requires Ready(sh, clock) && SlotsTaken(sh, next, SyncWorkers(sh), clock)
    ensures Leaves(sh, next, ClockSlots(sh, clock))
  {
    ClockSlotsAre(sh, clock);
    hide ClockSlots, Has, PendingAt, SyncWorkers;
  }

  lemma BarrierLeavesTable(sh: Shard, clock: int)
    requires Ready(sh, clock)
    ensures Leaves(sh, Barrier(sh, clock).0, ClockSlots(sh, clock))
  {
    hide *;
    BarrierTakes(sh, clock);
    TakenLeaves(sh, Barrier(sh, clock).0, clock);
  }

  function PassTakes(sh: Shard, w: Id, clock: int): seq<Slot> {
    if Closes(sh, w, clock) then ClockSlots(sh, clock) else []
  }

  lemma PassLeaves(sh: Shard, w: Id, clock: int, expired: bool)
    ensures Leaves(sh, Pass(sh, w, clock, expired).0, PassTakes(sh, w, clock))
  {
    if Closes(sh, w, clock) {
      BarrierLeavesTable(sh, clock);
      assert Pass(sh, w, clock, expired) == Barrier(sh, clock);
      hide Barrier, ClockSlots, Pass;
    } else {
      assert Pass(sh, w, clock, expired).0 == sh;
    }
  }

  lemma StoppingUnfolds(sh: Shard, slots: seq<Slot>)
    requires slots != []
    ensures Stopping(sh, slots) ==
      if !Apply(sh, PendingAt(sh, slots[0])).ok then [slots[0]] else Stopping(FlushFirst(sh, slots[0]), slots[1..])
  {
  }

  lemma FlushNothing(sh: Shard)
    ensures Flush(sh, []) == Outcome(sh, 0, true) && SlotsGone(sh, sh, []) && Stopping(sh, []) == []
  {
  }

  /** A flush takes out the slots up to the one at which it stops. */
  lemma {:induction false} FlushLeavesTable(sh: Shard, slots: seq<Slot>) returns (taken: seq<Slot>)
    requires DistinctSlots(slots)
    ensures taken <= slots && SlotsGone(sh, Flush(sh, slots).shard, taken)
    ensures if Flush(sh, slots).ok then taken == slots && Stopping(sh, slots) == []
            else taken != [] && Stopping(sh, slots) == [taken[|taken| - 1]]
    decreases |slots|
  {
    if slots == [] {
      taken := [];
      FlushNothing(sh);
    } else {
      var s, rest := slots[0], slots[1..];
      var next := FlushFirst(sh, s);
      assert DistinctSlots(rest);
      hide *;
      FirstFlushed(sh, s);
      FlushUnfolds(sh, slots);
      StoppingUnfolds(sh, slots);
      assert slots == [s] + rest;
      if !Apply(sh, PendingAt(sh, s)).ok {
        StopsAtOnce(sh, slots);
        taken := slots[..1];
      } else {
        var later := FlushLeavesTable(next, rest);
        taken := [s] + later;
        GoneTwice(sh, next, Flush(sh, slots).shard, s, later);
      }
    }
  }

  lemma SwitchLeaves(sh: Shard, mode: Mode, w: Id) returns (taken: seq<Slot>)
    ensures Leaves(sh, SetMode(sh, mode, w).0, taken)
    ensures if !Flushes(sh, mode) then taken == []
            else if Flush(Declared(sh, w), AllSlots(sh)).ok then taken == AllSlots(sh) && Stopping(sh, AllSlots(sh)) == []
            else taken != [] && taken <= AllSlots(sh) && Stopping(sh, AllSlots(sh)) == [taken[|taken| - 1]]
  {
    if Flushes(sh, mode) {
      taken := FlushedLeave(sh, w);
    } else {
      taken := [];
      SwitchIs(sh, mode, w);
      SamePending(sh, SetMode(sh, mode, w).0);
    }
  }

  lemma FlushedIs(sh: Shard, w: Id)
    requires sh.mode == Sync
    ensures Declared(sh, w).pending == sh.pending && SameData(Declared(sh, w), sh)
    ensures SetMode(sh, Async, w).0 == Flush(Declared(sh, w), AllSlots(sh)).shard
  {
    SameSlots(sh, Declared(sh, w));
    hide AllSlots, Flush;
  }

  lemma FlushedLeave(sh: Shard, w: Id) returns (taken: seq<Slot>)
    requires sh.mode == Sync
    ensures Leaves(sh, SetMode(sh, Async, w).0, taken)
    ensures if Flush(Declared(sh, w), AllSlots(sh)).ok then taken == AllSlots(sh) && Stopping(sh, AllSlots(sh)) == []
            else taken != [] && taken <= AllSlots(sh) && Stopping(sh, AllSlots(sh)) == [taken[|taken| - 1]]
  {
    hide *;
    var declared, slots := Declared(sh, w), AllSlots(sh);
    FlushedIs(sh, w);
    AllSlotsComplete(sh);
    taken := FlushLeavesTable(declared, slots);
    SameStopping(declared, sh, slots);
    GoneFrom(sh, declared, SetMode(sh, Async, w).0, taken);
    PrefixOf(sh, slots, taken);
    LeavesFrom(sh, SetMode(sh, Async, w).0, taken);
  }

  lemma LeavesFrom(a: Shard, b: Shard, slots: seq<Slot>)
    requires SlotsGone(a, b, slots) && DistinctSlots(slots) && forall s | s in slots :: Has(a, s)
    ensures Leaves(a, b, slots)
  {
  }

  lemma PrefixOf(sh: Shard, slots: seq<Slot>, taken: seq<Slot>)
    requires DistinctSlots(slots) && taken <= slots && forall s | s in slots :: Has(sh, s)
    ensures DistinctSlots(taken) && forall s | s in taken :: Has(sh, s)
  {
    hide Has;
    assert forall i | 0 <= i < |taken| :: taken[i] == slots[i];
  }

  lemma {:induction false} SameStopping(a: Shard, b: Shard, slots: seq<Slot>)
    requires a.pending == b.pending && SameData(a, b)
    ensures Stopping(a, slots) == Stopping(b, slots)
    decreases |slots|
  {
    if slots != [] {
      var es := PendingAt(a, slots[0]);
      assert PendingAt(b, slots[0]) == es;
      ApplySameData(a, b, es);
      FlushFirstData(a, b, slots[0]);
      hide Apply, FlushFirst, PendingAt;
      if Apply(a, es).ok {
        SameStopping(FlushFirst(a, slots[0]), FlushFirst(b, slots[0]), slots[1..]);
      }
    }
  }

  // ----- for one key, a slot is applied whole or not at all -----

  lemma {:induction false} SlotsTotalConcat(sh: Shard, xs: seq<Slot>, ys: seq<Slot>, k: Key, j: nat)
    ensures SlotsTotal(sh, xs + ys, k, j) == SlotsTotal(sh, xs, k, j) + SlotsTotal(sh, ys, k, j)
  {
    hide Total;
    if xs == [] {
      assert xs + ys == ys;
    } else {
      assert (xs + ys)[0] == xs[0] && (xs + ys)[1..] == xs[1..] + ys;
      SlotsTotalConcat(sh, xs[1..], ys, k, j);
    }
  }

  /** What slots leave with is what the pending table loses. */
  lemma WaitsSplit(a: Shard, b: Shard, slots: seq<Slot>, k: Key, j: nat)
    requires Leaves(a, b, slots)
    ensures Waits(a, k, j) == Waits(b, k, j) + SlotsTotal(a, slots, k, j)
  {
    AllSlotsComplete(a);
    AllSlotsComplete(b);
    var xs, ys := AllSlots(a), AllSlots(b);
    assert Waits(a, k, j) == SlotsTotal(a, xs, k, j) && Waits(b, k, j) == SlotsTotal(b, ys, k, j);
    SlotsJoin(a, b, slots, ys);
    hide AllSlots, Waits, Total;
    SlotsTotalPermuted(a, xs, slots + ys, k, j);
    SlotsTotalConcat(a, slots, ys, k, j);
    SlotsTotalFrame(a, b, ys, k, j);
  }

  lemma SlotsJoin(a: Shard, b: Shard, slots: seq<Slot>, ys: seq<Slot>)
    requires Leaves(a, b, slots) && DistinctSlots(ys) && forall s: Slot :: s in ys <==> Has(b, s)
    ensures DistinctSlots(slots + ys) && forall s: Slot :: s in slots + ys <==> Has(a, s)
    ensures forall s | s in ys :: PendingAt(a, s) == PendingAt(b, s)
  {
    hide Has, PendingAt;
    var all := slots + ys;
    forall i, m | 0 <= i < m < |all| ensures all[i] != all[m] {
      if i < |slots| <= m {
        assert all[i] in slots && all[m] in ys;
      }
    }
  }

  lemma {:induction false} NoKeyNoTotal(es: seq<Entry>, k: Key, j: nat)
    requires !HasKey(es, k)
    ensures Total(es, k, j) == 0.0
  {
    if es != [] {
      assert es[0].key != k;
      assert forall i | 0 <= i < |es[1..]| :: es[1..][i] == es[i + 1];
      NoKeyNoTotal(es[1..], k, j);
    }
  }

  lemma {:induction false} UnappliedKeys(sh: Shard, es: seq<Entry>, k: Key)
    requires HasKey(Unapplied(sh, es), k)
    ensures HasKey(es, k)
    decreases |es|
  {
    if es != [] && Applicable(sh, es[0]) {
      UnappliedKeys(ApplyOne(sh, es[0]), es[1..], k);
      var i :| 0 <= i < |es[1..]| && es[1..][i].key == k;
      assert es[i + 1].key == k;
    }
  }

  /** With one entry a key, what is left over of a key is all of it or nothing. */
  lemma {:induction false} LeftWhole(sh: Shard, es: seq<Entry>, k: Key, j: nat)
    requires DistinctKeys(es)
    ensures Total(Unapplied(sh, es), k, j) == if HasKey(Unapplied(sh, es), k) then Total(es, k, j) else 0.0
    decreases |es|
  {
    var left := Unapplied(sh, es);
    if !HasKey(left, k) {
      NoKeyNoTotal(left, k, j);
    } else if es != [] && Applicable(sh, es[0]) {
      var next := ApplyOne(sh, es[0]);
      UnappliedKeys(next, es[1..], k);
      assert es[0].key != k;
      LeftWhole(next, es[1..], k, j);
    }
  }

  lemma GroupTotal(sh: Shard, clock: int, k: Key, j: nat)
    requires Orderly(sh, k) && Ready(sh, clock)
    ensures OnlyAdds(Grouped(sh, clock), k)
    ensures Total(Grouped(sh, clock), k, j) == SlotsTotal(sh, ClockSlots(sh, clock), k, j)
  {
    var ws := SyncOnly(sh, Sorted(sh.workers));
    assert Grouped(sh, clock) == PopAll(sh, ws, clock).1;
    hide *;
    PopAllHeld(sh, ws, clock, k, j);
    var popped := GroupedIs(sh, clock);
    TakenLeaves(sh, popped, clock);
    WaitsSplit(sh, popped, ClockSlots(sh, clock), k, j);
  }

  lemma BarrierLeavesWhole(sh: Shard, clock: int, k: Key, j: nat)
    requires Orderly(sh, k) && Ready(sh, clock)
    ensures Total(BarrierDrops(sh, clock), k, j)
      == if HasKey(BarrierDrops(sh, clock), k) then SlotsTotal(sh, ClockSlots(sh, clock), k, j) else 0.0
  {
    var grouped := Grouped(sh, clock);
    GroupTotal(sh, clock, k, j);
    MergeFailsExactlyOnDisagreement(grouped);
    hide Grouped, Orderly, Ready, ClockSlots, SlotsTotal;
    if Merge(grouped).Merged? {
      MergeTotals([], grouped, k, j);
      LeftWhole(sh, Merge(grouped).entries, k, j);
    } else if !HasKey(grouped, k) {
      NoKeyNoTotal(grouped, k, j);
    }
    hide MergeFrom, Total, Unapplied, HasKey;
  }

  lemma PassMoves(sh: Shard, w: Id, clock: int, expired: bool, k: Key, j: nat)
    requires Orderly(sh, k)
    ensures var next := Pass(sh, w, clock, expired).0;
      && Orderly(next, k)
      && Stored(next, k, j) == Stored(sh, k, j)
           + if PassLoses(sh, w, clock, k) then 0.0 else SlotsTotal(sh, PassTakes(sh, w, clock), k, j)
  {
    var next := Pass(sh, w, clock, expired).0;
    PassHeld(sh, w, clock, expired, k, j);
    PassLeaves(sh, w, clock, expired);
    PassLeavesWhole(sh, w, clock, k, j);
    hide Pass, PassDrops, PassTakes, Leaves, Orderly, Total, SlotsTotal, Waits, Stored;
    WaitsSplit(sh, next, PassTakes(sh, w, clock), k, j);
  }

  lemma PassLeavesWhole(sh: Shard, w: Id, clock: int, k: Key, j: nat)
    requires Orderly(sh, k)
    ensures Total(PassDrops(sh, w, clock), k, j)
      == if PassLoses(sh, w, clock, k) then SlotsTotal(sh, PassTakes(sh, w, clock), k, j) else 0.0
  {
    if Closes(sh, w, clock) {
      BarrierLeavesWhole(sh, clock, k, j);
      hide BarrierDrops, ClockSlots, Total, SlotsTotal, HasKey;
    }
  }

  /** A flush that stops leaves over, of any key, all its slot has or nothing. */
  lemma {:induction false} FlushLeavesWhole(sh: Shard, slots: seq<Slot>, k: Key, j: nat)
    requires Neat(sh) && DistinctSlots(slots)
    ensures Stopping(sh, slots) == [] ==> FlushDrops(sh, slots) == []
    ensures Stopping(sh, slots) != [] ==>
      && Stopping(sh, slots)[0] in slots
      && Total(FlushDrops(sh, slots), k, j)
           == if HasKey(FlushDrops(sh, slots), k) then Total(PendingAt(sh, Stopping(sh, slots)[0]), k, j) else 0.0
    decreases |slots|
  {
    if slots != [] {
      var s, rest := slots[0], slots[1..];
      var es, next := PendingAt(sh, s), FlushFirst(sh, s);
      FirstFlushed(sh, s);
      NeatAfter(sh, next, [s]);
      OthersStay(sh, next, slots);
      NeatSlot(sh, s);
      LeftWhole(sh, es, k, j);
      hide Apply, PendingAt, FlushFirst, Unapplied, Neat, SlotsGone, Total, HasKey;
      if Apply(sh, es).ok {
        FlushLeavesWhole(next, rest, k, j);
      }
    }
  }

  lemma NeatSlot(sh: Shard, s: Slot)
    requires Neat(sh)
    ensures DistinctKeys(PendingAt(sh, s))
  {
  }

  function Spared(slots: seq<Slot>, loses: Slot -> bool): seq<Slot> {
    if slots == [] then []
    else if loses(slots[0]) then Spared(slots[1..], loses)
    else [slots[0]] + Spared(slots[1..], loses)
  }

  lemma {:induction false} SparedAre(slots: seq<Slot>, loses: Slot -> bool)
    requires DistinctSlots(slots)
    ensures DistinctSlots(Spared(slots, loses))
    ensures forall s :: s in Spared(slots, loses) <==> s in slots && !loses(s)
  {
    if slots != [] {
      SparedAre(slots[1..], loses);
      assert forall s :: s in slots <==> s == slots[0] || s in slots[1..];
    }
  }

  lemma {:induction false} NoneSpared(slots: seq<Slot>, loses: Slot -> bool)
    requires forall s | s in slots :: loses(s)
    ensures Spared(slots, loses) == []
  {
    if slots != [] {
      NoneSpared(slots[1..], loses);
    }
  }

  lemma {:induction false} AllSpared(slots: seq<Slot>, loses: Slot -> bool)
    requires forall s | s in slots :: !loses(s)
    ensures Spared(slots, loses) == slots
  {
    if slots != [] {
      AllSpared(slots[1..], loses);
    }
  }

  lemma {:induction false} SparedFront(taken: seq<Slot>, loses: Slot -> bool)
    requires taken != [] && DistinctSlots(taken)
    requires forall s | s in taken :: loses(s) <==> s == taken[|taken| - 1]
    ensures Spared(taken, loses) == taken[..|taken| - 1]
    decreases |taken|
  {
    var first, rest := taken[0], taken[1..];
    SparedUnfolds(taken, loses);
    RestOfTaken(taken);
    hide *;
    if rest == [] {
      SparedNothing(loses);
    } else {
      SparedFront(rest, loses);
    }
  }

  lemma SparedNothing(loses: Slot -> bool)
    ensures Spared([], loses) == []
  {
  }

  lemma SparedUnfolds(taken: seq<Slot>, loses: Slot -> bool)
    requires taken != []
    ensures Spared(taken, loses) ==
      if loses(taken[0]) then Spared(taken[1..], loses) else [taken[0]] + Spared(taken[1..], loses)
  {
  }

  lemma RestOfTaken(taken: seq<Slot>)
    requires taken != [] && DistinctSlots(taken)
    ensures var rest := taken[1..];
      && taken[0] in taken && DistinctSlots(rest) && (forall s | s in rest :: s in taken)
      && if rest == [] then taken[|taken| - 1] == taken[0] && taken[..|taken| - 1] == []
         else rest[|rest| - 1] == taken[|taken| - 1] && taken[0] != taken[|taken| - 1]
              && [taken[0]] + rest[..|rest| - 1] == taken[..|taken| - 1]
  {
  }

  lemma LastTotal(sh: Shard, taken: seq<Slot>, k: Key, j: nat)
    requires taken != []
    ensures SlotsTotal(sh, taken, k, j)
      == SlotsTotal(sh, taken[..|taken| - 1], k, j) + Total(PendingAt(sh, taken[|taken| - 1]), k, j)
  {
    var last := |taken| - 1;
    SlotsTotalRemove(sh, taken, last, k, j);
    hide Total, SlotsTotal;
    assert taken[..last] + taken[last + 1..] == taken[..last];
  }

  ghost function SwitchLosses(sh: Shard, mode: Mode, k: Key): Slot -> bool {
    s => Flushes(sh, mode) && FlushLoses(sh, s, k)
  }

  lemma SwitchMoves(sh: Shard, mode: Mode, w: Id, k: Key) returns (taken: seq<Slot>)
    requires Orderly(sh, k)
    ensures var next := SetMode(sh, mode, w).0;
      && Leaves(sh, next, taken) && Orderly(next, k)
      && forall j: nat :: Stored(next, k, j) == Stored(sh, k, j) + SlotsTotal(sh, Spared(taken, SwitchLosses(sh, mode, k)), k, j)
  {
    var next := SetMode(sh, mode, w).0;
    taken := SwitchLeaves(sh, mode, w);
    assert Serve(sh, Switching(mode, w)) == next;
    NeatIfOrderly(sh, k);
    SwitchHeld(sh, mode, w, k, 0);
    hide SetMode, Serve, Orderly;
    forall j: nat
      ensures Stored(next, k, j) == Stored(sh, k, j) + SlotsTotal(sh, Spared(taken, SwitchLosses(sh, mode, k)), k, j)
    {
      SwitchMovesAt(sh, mode, w, next, taken, k, j);
    }
  }

  lemma NeatIfOrderly(sh: Shard, k: Key)
    requires Orderly(sh, k)
    ensures Neat(sh)
  {
    hide DistinctKeys, OnlyAdds;
  }

  lemma SwitchMovesAt(sh: Shard, mode: Mode, w: Id, next: Shard, taken: seq<Slot>, k: Key, j: nat)
    requires Orderly(sh, k) && Neat(sh) && Leaves(sh, next, taken)
    requires next == SetMode(sh, mode, w).0 && next == Serve(sh, Switching(mode, w))
    requires if !Flushes(sh, mode) then taken == []
             else Stopping(sh, AllSlots(sh)) == [] || (taken != [] && Stopping(sh, AllSlots(sh)) == [taken[|taken| - 1]])
    ensures Stored(next, k, j) == Stored(sh, k, j) + SlotsTotal(sh, Spared(taken, SwitchLosses(sh, mode, k)), k, j)
  {
    SwitchHeld(sh, mode, w, k, j);
    SwitchIs(sh, mode, w);
    WaitsSplit(sh, next, taken, k, j);
    var drops := Dropped(sh, Switching(mode, w));
    var loses := SwitchLosses(sh, mode, k);
    assert Stored(next, k, j) + Total(drops, k, j) == Stored(sh, k, j) + SlotsTotal(sh, taken, k, j);
    if Flushes(sh, mode) {
      AllSlotsComplete(sh);
      FlushLeavesWhole(sh, AllSlots(sh), k, j);
      assert drops == FlushDrops(sh, AllSlots(sh));
    }
    hide Dropped, Serve, SetMode, AllSlots, FlushDrops, Stopping, Total, SlotsTotal, Orderly, Neat, Stored, PendingAt, Leaves;
    SwitchSpares(sh, mode, taken, drops, k, j);
  }

  lemma SwitchSpares(sh: Shard, mode: Mode, taken: seq<Slot>, drops: seq<Entry>, k: Key, j: nat)
    requires DistinctSlots(taken)
    requires if Flushes(sh, mode) then drops == FlushDrops(sh, AllSlots(sh)) else drops == [] && taken == []
    requires Flushes(sh, mode) ==>
      if Stopping(sh, AllSlots(sh)) == [] then drops == []
      else taken != [] && Stopping(sh, AllSlots(sh)) == [taken[|taken| - 1]]
           && Total(drops, k, j) == if HasKey(drops, k) then Total(PendingAt(sh, taken[|taken| - 1]), k, j) else 0.0
    ensures SlotsTotal(sh, Spared(taken, SwitchLosses(sh, mode, k)), k, j)
      == SlotsTotal(sh, taken, k, j) - Total(drops, k, j)
  {
    var loses := SwitchLosses(sh, mode, k);
    hide FlushDrops, AllSlots, Stopping, SlotsTotal;
    NothingTotals(k, j);
    hide Total;
    if Flushes(sh, mode) && Stopping(sh, AllSlots(sh)) != [] && HasKey(drops, k) {
      SparedFront(taken, loses);
      LastTotal(sh, taken, k, j);
    } else {
      AllSpared(taken, loses);
    }
  }

  // ----- the book stays exact -----

  ghost predicate Even(b: Book, k: Key, j: nat, initial: real) {
    && Stored(b.sh, k, j) == initial + Weigh(b.log, b.applied, k, j)
    && forall s: Slot | Has(b.sh, s) ::
         Total(PendingAt(b.sh, s), k, j) == Weigh(b.log, Open(b.log, Decided(b), {s}), k, j)
  }

  ghost predicate Exact(b: Book, k: Key, base: nat -> real) {
    Ticketed(b) && Orderly(b.sh, k) && forall j: nat :: Even(b, k, j, base(j))
  }

  /** The slots that leave weigh what their pending pushes weigh. */
  lemma OpenWeigh(b: Book, slots: seq<Slot>, k: Key, j: nat, initial: real)
    requires Even(b, k, j, initial) && DistinctSlots(slots) && forall s | s in slots :: Has(b.sh, s)
    ensures SlotsTotal(b.sh, slots, k, j) == Weigh(b.log, Open(b.log, Decided(b), set s | s in slots), k, j)
  {
    var wd := World(b.sh, b.log, Decided(b), map[]);
    var shifted := Stored(b.sh, k, j) - Weigh(b.log, Decided(b), k, j);
    assert Balanced(wd, k, j, shifted);
    SlotsWeigh(wd, slots, k, j, shifted);
  }

  /** What a move decides: the pending pushes of the slots that left, the spared ones as applied. */
  lemma MovedAre(b: Book, sh: Shard, taken: seq<Slot>, loses: Slot -> bool)
    requires Ticketed(b) && Leaves(b.sh, sh, taken)
    ensures var next := Move(b, sh, loses);
      && next.sh == sh && next.log == b.log
      && (forall i | 0 <= i < |b.log| ::
            && (i in next.applied <==>
                  i in b.applied || (i !in Decided(b) && SlotOf(b.log[i]) in taken && !loses(SlotOf(b.log[i]))))
            && (i in Decided(next) <==> i in Decided(b) || SlotOf(b.log[i]) in taken))
  {
    hide Has, Neat, PendingAt;
  }

  ghost predicate Moves(b: Book, next: Book, taken: seq<Slot>, kept: seq<Slot>) {
    && next.log == b.log
    && forall i | 0 <= i < |b.log| ::
         && (i in next.applied <==> i in b.applied || (i !in Decided(b) && SlotOf(b.log[i]) in kept))
         && (i in Decided(next) <==> i in Decided(b) || SlotOf(b.log[i]) in taken)
  }

  lemma MoveEven(b: Book, next: Book, taken: seq<Slot>, kept: seq<Slot>, k: Key, j: nat, initial: real)
    requires Even(b, k, j, initial) && Moves(b, next, taken, kept)
    requires SlotsGone(b.sh, next.sh, taken) && DistinctSlots(kept) && forall s | s in kept :: Has(b.sh, s)
    requires Stored(next.sh, k, j) == Stored(b.sh, k, j) + SlotsTotal(b.sh, kept, k, j)
    ensures Even(next, k, j, initial)
  {
    var log := b.log;
    var leaving := Open(log, Decided(b), set s | s in kept);
    OpenWeigh(b, kept, k, j, initial);
    hide Total, SlotsTotal, Weigh, Stored, Has, PendingAt;
    WeighUnion(log, b.applied, leaving, k, j);
    WeighSame(log, next.applied, b.applied + leaving, k, j);
    forall s: Slot | Has(next.sh, s)
      ensures Total(PendingAt(next.sh, s), k, j) == Weigh(log, Open(log, Decided(next), {s}), k, j)
    {
      assert s !in taken && Has(b.sh, s);
      WeighSame(log, Open(log, Decided(next), {s}), Open(log, Decided(b), {s}), k, j);
    }
  }

  lemma MoveExact(b: Book, sh: Shard, taken: seq<Slot>, loses: Slot -> bool, k: Key, base: nat -> real)
    requires Exact(b, k, base) && Leaves(b.sh, sh, taken) && Orderly(sh, k)
    requires forall j: nat :: Stored(sh, k, j) == Stored(b.sh, k, j) + SlotsTotal(b.sh, Spared(taken, loses), k, j)
    ensures Exact(Move(b, sh, loses), k, base)
  {
    MoveTickets(b, sh, taken, loses);
    var next, kept := Move(b, sh, loses), Spared(taken, loses);
    MovedAre(b, sh, taken, loses);
    SparedAre(taken, loses);
    hide Move, Orderly, Ticketed, Has, Spared, SlotsTotal, Stored, Weigh, Even, SlotsGone;
    forall j: nat ensures Even(next, k, j, base(j)) {
      MoveEven(b, next, taken, kept, k, j, base(j));
    }
  }

  // ----- opening a pending push, and pushes applied at once -----

  lemma OpenTickets(b: Book, w: Id, clock: int, r: Record, current: seq<Entry>)
    requires Ticketed(b) && SlotOf(r) == Slot(w, clock) && DistinctKeys(current)
    ensures Ticketed(Book(Opened(b.sh, w, clock, current), b.log + [r], b.applied, b.lost))
  {
    OpenedSlots(b.sh, w, clock, current);
    hide Opened, DistinctKeys;
    var sh, log := Opened(b.sh, w, clock, current), b.log + [r];
    forall i | 0 <= i < |log| && i !in Decided(b) ensures Has(sh, SlotOf(log[i])) {
      assert i < |b.log| ==> log[i] == b.log[i];
    }
  }

  lemma OpenEven(b: Book, w: Id, clock: int, r: Record, current: seq<Entry>, k: Key, j: nat, initial: real)
    requires Ticketed(b) && Even(b, k, j, initial) && SlotOf(r) == Slot(w, clock)
    requires Total(current, k, j) == Total(PendingAt(b.sh, Slot(w, clock)), k, j) + Total(r.entries, k, j)
    ensures Even(Book(Opened(b.sh, w, clock, current), b.log + [r], b.applied, b.lost), k, j, initial)
  {
    var s, sh, log, decided := Slot(w, clock), Opened(b.sh, w, clock, current), b.log + [r], Decided(b);
    OpenedSlots(b.sh, w, clock, current);
    assert Stored(sh, k, j) == Stored(b.sh, k, j);
    WeighAppend(b.log, r, b.applied, k, j);
    NothingTotals(k, j);
    hide Opened, Total, Weigh, Stored;
    forall t: Slot | Has(sh, t)
      ensures Total(PendingAt(sh, t), k, j) == Weigh(log, Open(log, decided, {t}), k, j)
    {
      var before, after := Open(b.log, decided, {t}), Open(log, decided, {t});
      WeighAppend(b.log, r, after, k, j);
      WeighSame(b.log, before, after, k, j);
      if t == s && !Has(b.sh, s) {
        WeighNone(b.log, before, k, j);
      }
    }
  }

  lemma AtOnceEven(b: Book, sh: Shard, r: Record, losing: bool, k: Key, j: nat, initial: real)
    requires Ticketed(b) && Even(b, k, j, initial) && SlotsGone(b.sh, sh, [])
    requires Stored(sh, k, j) == Stored(b.sh, k, j) + if losing then 0.0 else Total(r.entries, k, j)
    ensures Even(DecideAtOnce(b, sh, r, losing), k, j, initial)
  {
    var next := DecideAtOnce(b, sh, r, losing);
    hide Total, Weigh, Stored, Has, PendingAt;
    WeighAppend(b.log, r, next.applied, k, j);
    WeighSame(b.log, b.applied, next.applied, k, j);
    forall t: Slot | Has(sh, t)
      ensures Total(PendingAt(sh, t), k, j) == Weigh(next.log, Open(next.log, Decided(next), {t}), k, j)
    {
      var before, after := Open(b.log, Decided(b), {t}), Open(next.log, Decided(next), {t});
      WeighAppend(b.log, r, after, k, j);
      WeighSame(b.log, before, after, k, j);
    }
  }

  lemma AtOnceTickets(b: Book, sh: Shard, r: Record, losing: bool)
    requires Ticketed(b) && SlotsGone(b.sh, sh, [])
    ensures Ticketed(DecideAtOnce(b, sh, r, losing))
  {
    NeatAfter(b.sh, sh, []);
    hide Has, PendingAt, Neat;
  }

  // ----- every request keeps the book -----

  lemma FrameTickets(b: Book, sh: Shard)
    requires Ticketed(b) && SlotsGone(b.sh, sh, [])
    ensures Ticketed(b.(sh := sh))
  {
    NeatAfter(b.sh, sh, []);
    hide Has, PendingAt, Neat;
  }

  lemma FrameExact(b: Book, sh: Shard, k: Key, base: nat -> real)
    requires Exact(b, k, base) && SlotsGone(b.sh, sh, []) && sh.values == b.sh.values
    ensures Exact(b.(sh := sh), k, base)
  {
    FrameTickets(b, sh);
    OrderlyAfter(b.sh, sh, [], k);
    hide Ticketed, Orderly, Total, Weigh, Has, PendingAt;
    forall j: nat ensures Even(b.(sh := sh), k, j, base(j)) {
      assert Even(b, k, j, base(j)) && Stored(sh, k, j) == Stored(b.sh, k, j);
    }
  }

  lemma RegisterFrame(sh: Shard, w: Id)
    ensures SlotsGone(sh, Register(sh, w).0, []) && Register(sh, w).0.values == sh.values
  {
    var next := Register(sh, w).0;
    forall s: Slot ensures Has(next, s) == Has(sh, s) && PendingAt(next, s) == PendingAt(sh, s) {
    }
  }

  lemma PushNowFrame(sh: Shard, w: Id, clock: int, normalized: seq<Entry>)
    ensures SlotsGone(sh, PushNow(Known(sh, w), w, clock, normalized).0, [])
  {
    var known := Known(sh, w);
    var next := PushNow(known, w, clock, normalized).0;
    KnownSlots(sh, w);
    ApplyFrame(known, normalized);
    assert next.pending == known.pending;
    hide Apply, Known, PushNow;
    SamePending(known, next);
    GoneNothing(sh, known, next);
  }

  lemma GoneNothing(a: Shard, b: Shard, c: Shard)
    requires SlotsGone(a, b, []) && SlotsGone(b, c, [])
    ensures SlotsGone(a, c, [])
  {
    hide Has, PendingAt;
  }

  lemma JoinedIs(sh: Shard, w: Id, clock: int, entries: seq<Entry>)
    requires Neat(sh) && JoinedSlot(sh, w, clock, entries).Merged?
    ensures DistinctKeys(JoinedSlot(sh, w, clock, entries).entries)
    ensures Begun(sh, w, clock, entries) == Opened(Known(sh, w), w, clock, JoinedSlot(sh, w, clock, entries).entries)
  {
    NeatSlot(sh, Slot(w, clock));
    MergeFromShape(PendingAt(sh, Slot(w, clock)), Merge(entries).entries);
  }

  /** The book after a push has opened its slot. */
  ghost function BegunBook(b: Book, w: Id, clock: int, entries: seq<Entry>): Book {
    Book(Begun(b.sh, w, clock, entries), b.log + [Record(w, clock, entries)], b.applied, b.lost)
  }

  lemma BegunTickets(b: Book, w: Id, clock: int, entries: seq<Entry>)
    requires Ticketed(b) && JoinedSlot(b.sh, w, clock, entries).Merged?
    ensures Ticketed(BegunBook(b, w, clock, entries)) && Has(Begun(b.sh, w, clock, entries), Slot(w, clock))
  {
    var known := Known(b.sh, w);
    JoinedIs(b.sh, w, clock, entries);
    KnownSlots(b.sh, w);
    FrameTickets(b, known);
    var current := JoinedSlot(b.sh, w, clock, entries).entries;
    OpenedSlots(known, w, clock, current);
    hide JoinedSlot, Opened, Ticketed, Begun, Known;
    OpenTickets(b.(sh := known), w, clock, Record(w, clock, entries), current);
  }

  lemma BegunExact(b: Book, w: Id, clock: int, entries: seq<Entry>, k: Key, base: nat -> real)
    requires Exact(b, k, base) && Merge(entries).Merged? && JoinedSlot(b.sh, w, clock, entries).Merged? && OnlyAdds(entries, k)
    ensures Exact(BegunBook(b, w, clock, entries), k, base)
  {
    var s, known, r := Slot(w, clock), Known(b.sh, w), Record(w, clock, entries);
    var current := JoinedSlot(b.sh, w, clock, entries).entries;
    BegunTickets(b, w, clock, entries);
    JoinedIs(b.sh, w, clock, entries);
    KnownSlots(b.sh, w);
    FrameExact(b, known, k, base);
    SlotOrderly(b.sh, s, k);
    JoinedTotals(b.sh, w, clock, entries, k, 0);
    OpenHeld(known, w, clock, current, k, 0);
    hide JoinedSlot, Opened, Ticketed, Begun, Known, Orderly, Even, Total, Has, SlotsGone;
    forall j: nat ensures Even(BegunBook(b, w, clock, entries), k, j, base(j)) {
      JoinedTotals(b.sh, w, clock, entries, k, j);
      OpenEven(b.(sh := known), w, clock, r, current, k, j, base(j));
    }
  }

  lemma JoinedTotals(sh: Shard, w: Id, clock: int, entries: seq<Entry>, k: Key, j: nat)
    requires Orderly(sh, k) && OnlyAdds(entries, k) && Merge(entries).Merged? && JoinedSlot(sh, w, clock, entries).Merged?
    ensures var current := JoinedSlot(sh, w, clock, entries).entries;
      && OnlyAdds(current, k)
      && Total(current, k, j) == Total(PendingAt(sh, Slot(w, clock)), k, j) + Total(entries, k, j)
  {
    SlotOrderly(sh, Slot(w, clock), k);
    MergeTotals([], entries, k, j);
    MergeTotals(PendingAt(sh, Slot(w, clock)), Merge(entries).entries, k, j);
  }

  lemma EnterTickets(b: Book, r: Request, k: Key)
    requires Ticketed(b)
    ensures Ticketed(Enter(b, r, k))
  {
    match r
    case Registering(w) =>
      RegisterFrame(b.sh, w);
      FrameTickets(b, Serve(b.sh, r));
    case Pushing(w, clock, entries, expired) => PushTickets(b, w, clock, entries, expired, k);
    case Waking(w, clock, expired) =>
      PassLeaves(b.sh, w, clock, expired);
      MoveTickets(b, Serve(b.sh, r), PassTakes(b.sh, w, clock), s => PassLoses(b.sh, w, clock, k));
    case Switching(mode, w) =>
      var taken := SwitchLeaves(b.sh, mode, w);
      MoveTickets(b, Serve(b.sh, r), taken, s => Flushes(b.sh, mode) && FlushLoses(b.sh, s, k));
  }

  lemma PushTickets(b: Book, w: Id, clock: int, entries: seq<Entry>, expired: bool, k: Key)
    requires Ticketed(b)
    ensures Ticketed(Enter(b, Pushing(w, clock, entries, expired), k))
  {
    var next := Push(b.sh, w, clock, entries, expired).0;
    NeatSlot(b.sh, Slot(w, clock));
    PushIs(b.sh, w, clock, entries, expired);
    hide Push, Ticketed, JoinedSlot, Begun, Neat;
    if !Accepts(b.sh, w, clock, entries) {
      FrameTickets(b, next);
    } else if AppliesAtOnce(b.sh, w) {
      PushNowFrame(b.sh, w, clock, Merge(entries).entries);
      AtOnceTickets(b, next, Record(w, clock, entries), HasKey(AtOnceLoses(b.sh, entries), k));
    } else {
      var begun := Begun(b.sh, w, clock, entries);
      BegunTickets(b, w, clock, entries);
      PassLeaves(begun, w, clock, expired);
      hide Pass, PassTakes, Move, SlotsGone, Has;
      MoveTickets(BegunBook(b, w, clock, entries), next, PassTakes(begun, w, clock), s => PassLoses(begun, w, clock, k));
    }
  }

  ghost function PassLosses(sh: Shard, w: Id, clock: int, k: Key): Slot -> bool {
    s => PassLoses(sh, w, clock, k)
  }

  lemma PassExact(b: Book, w: Id, clock: int, expired: bool, k: Key, base: nat -> real)
    requires Exact(b, k, base)
    ensures Exact(Move(b, Pass(b.sh, w, clock, expired).0, PassLosses(b.sh, w, clock, k)), k, base)
  {
    var sh, next, taken := b.sh, Pass(b.sh, w, clock, expired).0, PassTakes(b.sh, w, clock);
    var loses := PassLosses(sh, w, clock, k);
    PassLeaves(sh, w, clock, expired);
    PassMoves(sh, w, clock, expired, k, 0);
    if PassLoses(sh, w, clock, k) { NoneSpared(taken, loses); } else { AllSpared(taken, loses); }
    hide Pass, PassTakes, PassLoses, Spared, Ticketed, Orderly, Even, Leaves, Stored, Move;
    forall j: nat ensures Stored(next, k, j) == Stored(sh, k, j) + SlotsTotal(sh, Spared(taken, loses), k, j) {
      PassMoves(sh, w, clock, expired, k, j);
    }
    MoveExact(b, next, taken, loses, k, base);
  }

  lemma AtOnceExact(b: Book, w: Id, clock: int, entries: seq<Entry>, k: Key, base: nat -> real)
    requires Exact(b, k, base) && OnlyAdds(entries, k)
    requires Merge(entries).Merged? && DistinctKeys(Merge(entries).entries)
    ensures var sh := PushNow(Known(b.sh, w), w, clock, Merge(entries).entries).0;
      Exact(DecideAtOnce(b, sh, Record(w, clock, entries), HasKey(AtOnceLoses(b.sh, entries), k)), k, base)
  {
    var normalized, known, r := Merge(entries).entries, Known(b.sh, w), Record(w, clock, entries);
    var sh := PushNow(known, w, clock, normalized).0;
    var losing := HasKey(AtOnceLoses(b.sh, entries), k);
    PushNowFrame(b.sh, w, clock, normalized);
    AtOnceTickets(b, sh, r, losing);
    OrderlyAfter(b.sh, sh, [], k);
    assert AtOnceLoses(b.sh, entries) == Unapplied(b.sh, normalized);
    hide Ticketed, Orderly, Even, PushNow, Known, Unapplied, SlotsGone, AtOnceLoses, HasKey, DecideAtOnce;
    forall j: nat ensures Even(DecideAtOnce(b, sh, r, losing), k, j, base(j)) {
      AtOnceStored(b.sh, w, clock, entries, k, j);
      AtOnceEven(b, sh, r, losing, k, j, base(j));
    }
  }

  lemma AtOnceStored(sh: Shard, w: Id, clock: int, entries: seq<Entry>, k: Key, j: nat)
    requires Orderly(sh, k) && OnlyAdds(entries, k) && Merge(entries).Merged?
    ensures var next := PushNow(Known(sh, w), w, clock, Merge(entries).entries).0;
      Stored(next, k, j) == Stored(sh, k, j)
        + if HasKey(Unapplied(sh, Merge(entries).entries), k) then 0.0 else Total(entries, k, j)
  {
    var normalized := Merge(entries).entries;
    MergeTotals([], entries, k, j);
    PushNowHeld(sh, Known(sh, w), w, clock, normalized, k, j);
    PushNowFrame(sh, w, clock, normalized);
    hide Known, PushNow, MergeFrom, Orderly, Stored, Total, HasKey, Unapplied;
    WaitsFrame(sh, PushNow(Known(sh, w), w, clock, normalized).0, k, j);
    LeftWhole(sh, normalized, k, j);
  }

  lemma PushExact(b: Book, w: Id, clock: int, entries: seq<Entry>, expired: bool, k: Key, base: nat -> real)
    requires Exact(b, k, base) && OnlyAdds(entries, k)
    ensures Exact(Enter(b, Pushing(w, clock, entries, expired), k), k, base)
  {
    var next := Push(b.sh, w, clock, entries, expired).0;
    NeatSlot(b.sh, Slot(w, clock));
    PushIs(b.sh, w, clock, entries, expired);
    hide Push, Ticketed, JoinedSlot, Begun, Orderly, Even, PassLoses, Pass;
    if !Accepts(b.sh, w, clock, entries) {
      FrameExact(b, next, k, base);
    } else if AppliesAtOnce(b.sh, w) {
      AtOnceExact(b, w, clock, entries, k, base);
    } else {
      var begun := Begun(b.sh, w, clock, entries);
      BegunExact(b, w, clock, entries, k, base);
      PassExact(BegunBook(b, w, clock, entries), w, clock, expired, k, base);
      SameMove(BegunBook(b, w, clock, entries), next, s => PassLoses(begun, w, clock, k), PassLosses(begun, w, clock, k));
    }
  }

  lemma SameMove(b: Book, sh: Shard, f: Slot -> bool, g: Slot -> bool)
    requires forall s :: f(s) == g(s)
    ensures Move(b, sh, f) == Move(b, sh, g)
  {
    hide Has;
  }

  lemma EnterExact(b: Book, r: Request, k: Key, base: nat -> real)
    requires Exact(b, k, base) && (r.Pushing? ==> OnlyAdds(r.entries, k))
    ensures Exact(Enter(b, r, k), k, base)
  {
    hide Ticketed, Orderly, Even, PassLoses, Pass, Push, Register, SetMode, FlushLoses, Accepts, Begun;
    match r
    case Registering(w) =>
      RegisterFrame(b.sh, w);
      FrameExact(b, Serve(b.sh, r), k, base);
    case Pushing(w, clock, entries, expired) => PushExact(b, w, clock, entries, expired, k, base);
    case Waking(w, clock, expired) =>
      PassExact(b, w, clock, expired, k, base);
      SameMove(b, Serve(b.sh, r), s => PassLoses(b.sh, w, clock, k), PassLosses(b.sh, w, clock, k));
    case Switching(mode, w) =>
      var taken := SwitchMoves(b.sh, mode, w, k);
      MoveExact(b, Serve(b.sh, r), taken, SwitchLosses(b.sh, mode, k), k, base);
      SameMove(b, Serve(b.sh, r), s => Flushes(b.sh, mode) && FlushLoses(b.sh, s, k), SwitchLosses(b.sh, mode, k));
  }

  // ----- main results -----

  lemma BlankIsExact(mode: Mode, initial: map<Key, seq<real>>, k: Key)
    ensures Ticketed(Blank(mode, initial))
    ensures Exact(Blank(mode, initial), k, (j: nat) => Stored(New(mode, initial), k, j))
  {
    assert forall s: Slot :: !Has(New(mode, initial), s);
  }

  lemma {:induction false} RunTickets(b: Book, rs: seq<Request>, k: Key)
    requires Ticketed(b)
    ensures Ticketed(Follow(b, rs, k))
    decreases |rs|
  {
    if rs != [] {
      RunTickets(b, rs[..|rs| - 1], k);
      EnterTickets(Follow(b, rs[..|rs| - 1], k), rs[|rs| - 1], k);
      hide Enter, Ticketed;
    }
  }

  lemma {:induction false} RunExact(b: Book, rs: seq<Request>, k: Key, base: nat -> real)
    requires Exact(b, k, base) && forall r | r in rs && r.Pushing? :: OnlyAdds(r.entries, k)
    ensures Exact(Follow(b, rs, k), k, base)
    decreases |rs|
  {
    if rs != [] {
      var last := rs[|rs| - 1];
      assert last in rs && forall r | r in rs[..|rs| - 1] :: r in rs;
      hide Enter, Exact, OnlyAdds;
      RunExact(b, rs[..|rs| - 1], k, base);
      EnterExact(Follow(b, rs[..|rs| - 1], k), last, k, base);
    }
  }

  /**
   Over any run every accepted push is, for a key that is only added to, exactly one of applied, lost
   and pending: the stored value is the initial one plus the applied pushes, each whole and once.
   */
  lemma StoredIsApplied(mode: Mode, initial: map<Key, seq<real>>, rs: seq<Request>, k: Key, j: nat)
    requires forall r | r in rs && r.Pushing? :: OnlyAdds(r.entries, k)
    ensures var end := Follow(Blank(mode, initial), rs, k);
      && Ticketed(end)
      && Stored(end.sh, k, j) == Stored(New(mode, initial), k, j) + Weigh(end.log, end.applied, k, j)
  {
    var base := (j: nat) => Stored(New(mode, initial), k, j);
    BlankIsExact(mode, initial, k);
    hide Ticketed, Follow, Weigh, Stored;
    RunExact(Blank(mode, initial), rs, k, base);
    assert Even(Follow(Blank(mode, initial), rs, k), k, j, base(j));
  }

  lemma {:induction false} FollowServes(b: Book, rs: seq<Request>, k: Key)
    ensures Follow(b, rs, k).sh == After(b.sh, rs)
    decreases |rs|
  {
    if rs != [] {
      var front, last := rs[..|rs| - 1], rs[|rs| - 1];
      FollowServes(b, front, k);
      hide Serve;
      assert front + [last] == rs;
      AfterLast(b.sh, front, last);
    }
  }

  lemma {:induction false} AfterLast(sh: Shard, front: seq<Request>, last: Request)
    ensures After(sh, front + [last]) == Serve(After(sh, front), last)
    decreases |front|
  {
    hide Serve;
    if front == [] {
      assert [last][1..] == [];
    } else {
      AfterLast(Serve(sh, front[0]), front[1..], last);
      assert (front + [last])[0] == front[0] && (front + [last])[1..] == front[1..] + [last];
    }
  }
}
