/**
 When a barrier or a flush raises half-way. Both take entries out of the pending table before they
 apply them, so what was taken out and not applied is gone. Here are the exact conditions, on the
 tables before the request, what is left behind when they fail, and for each failure a run from a
 new shard that reaches it.
 */
module SparseFailures {
  import opened SparseProtocol
  import opened SparseShard
  import opened SparseLedger

  // ----- applying entries in order -----

  /** How long the value of a key is once the entries are applied, or -1 for a key not stored. */
  function LengthAfter(sh: Shard, es: seq<Entry>, key: Key): int {
    if es == [] then (if key in sh.values then |sh.values[key]| else -1)
    else if es[|es| - 1].key == key then |es[|es| - 1].values|
    else LengthAfter(sh, es[..|es| - 1], key)
  }

  /** The i-th entry sets its key, or is as long as the closest value of that key before it. */
  predicate FitsInTurn(sh: Shard, es: seq<Entry>, i: nat)
    requires i < |es|
  {
    var before := LengthAfter(sh, es[..i], es[i].key);
    es[i].op == Set || before == -1 || before == |es[i].values|
  }

  ghost predicate AllFit(sh: Shard, es: seq<Entry>) {
    forall i | 0 <= i < |es| :: FitsInTurn(sh, es, i)
  }

  lemma {:induction false} LengthAfterFirst(sh: Shard, e: Entry, es: seq<Entry>, key: Key)
    requires Applicable(sh, e)
    ensures LengthAfter(ApplyOne(sh, e), es, key) == LengthAfter(sh, [e] + es, key)
  {
    if es == [] {
      assert ([e] + es)[..0] == [];
    } else {
      assert ([e] + es)[..|es|] == [e] + es[..|es| - 1];
      LengthAfterFirst(sh, e, es[..|es| - 1], key);
    }
  }

  lemma FitsLater(sh: Shard, es: seq<Entry>, i: nat)
    requires 0 < i < |es| && Applicable(sh, es[0])
    ensures FitsInTurn(sh, es, i) == FitsInTurn(ApplyOne(sh, es[0]), es[1..], i - 1)
  {
    var rest := es[1..];
    LengthAfterFirst(sh, es[0], rest[..i - 1], rest[i - 1].key);
    assert [es[0]] + rest[..i - 1] == es[..i];
  }

  /** Applying stops at the first entry that does not fit in its turn. */
  lemma {:induction false} ApplyExact(sh: Shard, es: seq<Entry>)
    ensures var done := Apply(sh, es);
      && done.count <= |es| && (done.ok <==> done.count == |es|)
      && (forall i | 0 <= i < done.count :: FitsInTurn(sh, es, i))
      && (!done.ok ==> !FitsInTurn(sh, es, done.count))
    decreases |es|
  {
    if es != [] {
      assert FitsInTurn(sh, es, 0) == Applicable(sh, es[0]) by { assert es[..0] == []; }
      if Applicable(sh, es[0]) {
        ApplyExact(ApplyOne(sh, es[0]), es[1..]);
        forall i | 0 < i < |es| ensures FitsInTurn(sh, es, i) == FitsInTurn(ApplyOne(sh, es[0]), es[1..], i - 1) {
          FitsLater(sh, es, i);
        }
        hide FitsInTurn, Applicable, ApplyOne;
      }
    }
  }

  lemma {:induction false} ApplyFrame(sh: Shard, es: seq<Entry>)
    ensures SameButValues(sh, Apply(sh, es).shard)
    decreases |es|
  {
    if es != [] && Applicable(sh, es[0]) {
      ApplyFrame(ApplyOne(sh, es[0]), es[1..]);
    }
  }

  /** What applying would leave over. */
  function Unapplied(sh: Shard, es: seq<Entry>): seq<Entry>
    decreases |es|
  {
    if es == [] || !Applicable(sh, es[0]) then es else Unapplied(ApplyOne(sh, es[0]), es[1..])
  }

  lemma {:induction false} UnappliedExact(sh: Shard, es: seq<Entry>)
    ensures Unapplied(sh, es) == [] <==> AllFit(sh, es)
    ensures Apply(sh, es).ok <==> AllFit(sh, es)
  {
    ApplyExact(sh, es);
    UnappliedIsRest(sh, es);
  }

  lemma {:induction false} UnappliedIsRest(sh: Shard, es: seq<Entry>)
    ensures Apply(sh, es).count <= |es|
    ensures Unapplied(sh, es) == es[Apply(sh, es).count..]
    decreases |es|
  {
    if es != [] && Applicable(sh, es[0]) {
      UnappliedIsRest(ApplyOne(sh, es[0]), es[1..]);
    }
  }

  /** With one entry a key, fitting does not depend on the order. */
  lemma FitsByKey(sh: Shard, es: seq<Entry>)
    requires DistinctKeys(es)
    ensures AllFit(sh, es) <==> forall e | e in es :: Applicable(sh, e)
  {
    forall i | 0 <= i < |es| ensures FitsInTurn(sh, es, i) == Applicable(sh, es[i]) {
      AbsentKey(sh, es[..i], es[i].key);
    }
    assert forall i | 0 <= i < |es| :: es[i] in es;
  }

  lemma {:induction false} AbsentKey(sh: Shard, es: seq<Entry>, key: Key)
    requires forall i | 0 <= i < |es| :: es[i].key != key
    ensures LengthAfter(sh, es, key) == LengthAfter(sh, [], key)
  {
    if es != [] {
      AbsentKey(sh, es[..|es| - 1], key);
    }
  }

  function ValueOf(sh: Shard, key: Key): seq<seq<real>> {
    if key in sh.values then [sh.values[key]] else []
  }

  lemma {:induction false} ApplyLeaves(sh: Shard, es: seq<Entry>, key: Key)
    requires forall i | 0 <= i < |es| :: es[i].key != key
    ensures ValueOf(Apply(sh, es).shard, key) == ValueOf(sh, key)
    decreases |es|
  {
    if es != [] && Applicable(sh, es[0]) {
      ApplyLeaves(ApplyOne(sh, es[0]), es[1..], key);
    }
  }

  /** With one entry a key, the counted entries change their key's value and the others do not. */
  lemma {:induction false} ApplyByKey(sh: Shard, es: seq<Entry>, i: nat)
    requires DistinctKeys(es) && i < |es|
    ensures var done := Apply(sh, es);
      if i < done.count
      then Applicable(sh, es[i]) && ValueOf(done.shard, es[i].key) == ValueOf(ApplyOne(sh, es[i]), es[i].key)
      else ValueOf(done.shard, es[i].key) == ValueOf(sh, es[i].key)
    decreases |es|
  {
    if Applicable(sh, es[0]) {
      var next, rest := ApplyOne(sh, es[0]), es[1..];
      if i == 0 {
        ApplyLeaves(next, rest, es[0].key);
      } else {
        assert es[i] == rest[i - 1] && es[i].key != es[0].key;
        ApplyByKey(next, rest, i - 1);
      }
    }
  }

  // ----- the barrier -----

  function Grouped(sh: Shard, clock: int): seq<Entry> {
    PopAll(sh, SyncOnly(sh, Sorted(sh.workers)), clock).1
  }

  /** The entries sync workers have pending for one clock agree on operations and additive lengths. */
  ghost predicate Mergeable(sh: Shard, clock: int) {
    forall v, w, x, y | v in SyncWorkers(sh) && w in SyncWorkers(sh)
      && x in PendingAt(sh, Slot(v, clock)) && y in PendingAt(sh, Slot(w, clock)) :: Agree(x, y)
  }

  /** Each of them sets its key, or finds it missing or as long as itself. */
  ghost predicate Appliable(sh: Shard, clock: int) {
    forall w, x | w in SyncWorkers(sh) && x in PendingAt(sh, Slot(w, clock)) :: Applicable(sh, x)
  }

  /** The table without the slots the workers have at the clock. */
  ghost predicate SlotsTaken(a: Shard, b: Shard, ws: set<Id>, clock: int) {
    forall s: Slot ::
      && (Has(b, s) <==> Has(a, s) && !(s.clock == clock && s.worker in ws))
      && (Has(b, s) ==> PendingAt(b, s) == PendingAt(a, s))
  }

  lemma PopTakes(sh: Shard, w: Id, clock: int)
    ensures var popped := Pop(sh, Slot(w, clock));
      SameButPending(popped, sh) && SlotsTaken(sh, popped, {w}, clock)
  {
  }

  lemma {:induction false} PopAllTakes(sh: Shard, ws: seq<Id>, clock: int)
    ensures var popped := PopAll(sh, ws, clock).0;
      SameButPending(popped, sh) && SlotsTaken(sh, popped, (set w | w in ws), clock)
    decreases |ws|
  {
    if ws != [] {
      var next := Pop(sh, Slot(ws[0], clock));
      assert PopAll(sh, ws, clock).0 == PopAll(next, ws[1..], clock).0;
      hide Pop, PopAll, Has, PendingAt;
      PopTakes(sh, ws[0], clock);
      PopAllTakes(next, ws[1..], clock);
      SlotsTakenTwice(sh, next, PopAll(sh, ws, clock).0, ws, clock);
    }
  }

  lemma SlotsTakenTwice(a: Shard, b: Shard, c: Shard, ws: seq<Id>, clock: int)
    requires ws != [] && SlotsTaken(a, b, {ws[0]}, clock) && SlotsTaken(b, c, (set w | w in ws[1..]), clock)
    ensures SlotsTaken(a, c, (set w | w in ws), clock)
  {
    hide Has, PendingAt;
    assert forall w :: w in ws <==> w == ws[0] || w in ws[1..];
  }

  lemma {:induction false} PopAllGroups(sh: Shard, ws: seq<Id>, clock: int, e: Entry)
    requires Increasing(ws)
    ensures e in PopAll(sh, ws, clock).1 <==> exists w | w in ws :: e in PendingAt(sh, Slot(w, clock))
    decreases |ws|
  {
    if ws != [] {
      var next := Pop(sh, Slot(ws[0], clock));
      PopAllGroups(next, ws[1..], clock, e);
      assert forall w :: w in ws <==> w == ws[0] || w in ws[1..];
      forall w | w in ws[1..] ensures w != ws[0] && PendingAt(next, Slot(w, clock)) == PendingAt(sh, Slot(w, clock)) {
      }
      assert PopAll(sh, ws, clock).1 == PendingAt(sh, Slot(ws[0], clock)) + PopAll(next, ws[1..], clock).1;
      hide PopAll, PendingAt;
    }
  }

  lemma GroupedIs(sh: Shard, clock: int) returns (popped: Shard)
    ensures popped == PopAll(sh, SyncOnly(sh, Sorted(sh.workers)), clock).0
    ensures SameButPending(popped, sh) && SlotsTaken(sh, popped, SyncWorkers(sh), clock)
    ensures forall e :: e in Grouped(sh, clock) <==> exists w | w in SyncWorkers(sh) :: e in PendingAt(sh, Slot(w, clock))
  {
    var ws := SyncOnly(sh, Sorted(sh.workers));
    SyncOnlyIncreasing(sh, Sorted(sh.workers));
    assert (set w | w in ws) == SyncWorkers(sh);
    popped := PopAll(sh, ws, clock).0;
    PopAllTakes(sh, ws, clock);
    hide PopAll, SyncOnly, Sorted, SyncWorkers, PendingAt, Has;
    assert forall w :: w in ws <==> w in SyncWorkers(sh);
    forall e ensures e in Grouped(sh, clock) <==> exists w | w in SyncWorkers(sh) :: e in PendingAt(sh, Slot(w, clock)) {
      PopAllGroups(sh, ws, clock, e);
    }
  }

  lemma GroupedFrom(sh: Shard, popped: Shard, clock: int)
    requires popped == PopAll(sh, SyncOnly(sh, Sorted(sh.workers)), clock).0
    ensures PopAll(sh, SyncOnly(sh, Sorted(sh.workers)), clock) == (popped, Grouped(sh, clock))
  {
    hide PopAll, SyncOnly, Sorted;
  }

  lemma AgreePairs(es: seq<Entry>)
    ensures AllAgree(es) <==> forall x, y | x in es && y in es :: Agree(x, y)
  {
    if AllAgree(es) {
      forall x, y | x in es && y in es ensures Agree(x, y) {
        var i :| 0 <= i < |es| && es[i] == x;
        var j :| 0 <= j < |es| && es[j] == y;
        assert i < j ==> Agree(es[i], es[j]);
        assert j < i ==> Agree(es[j], es[i]);
      }
    } else {
      var i, j :| 0 <= i < j < |es| && !Agree(es[i], es[j]);
      assert es[i] in es && es[j] in es;
    }
  }

  lemma MergeableIs(sh: Shard, clock: int)
    ensures Mergeable(sh, clock) <==> AllAgree(Grouped(sh, clock))
    ensures Appliable(sh, clock) <==> forall e | e in Grouped(sh, clock) :: Applicable(sh, e)
  {
    var popped := GroupedIs(sh, clock);
    AgreePairs(Grouped(sh, clock));
    hide Grouped, SyncWorkers, PendingAt, AllAgree, Agree, Applicable, Has;
  }

  lemma SourceOf(es: seq<Entry>, m: Entry) returns (e: Entry)
    requires AllAgree(es) && Merge(es).Merged? && m in Merge(es).entries
    ensures e in es && e.key == m.key && Agree(m, e)
  {
    var merged := Merge(es).entries;
    MergeFailsExactlyOnDisagreement(es);
    AgreePairs(es);
    hide MergeFrom, AllAgree;
    assert HasKey(merged, m.key);
    var j :| 0 <= j < |es| && es[j].key == m.key;
    e := es[j];
    MergeFromJoins([], es, e);
    var i :| 0 <= i < |merged| && merged[i] == m;
  }

  lemma TargetOf(es: seq<Entry>, e: Entry) returns (m: Entry)
    requires AllAgree(es) && Merge(es).Merged? && e in es
    ensures m in Merge(es).entries && m.key == e.key && Agree(m, e)
  {
    var merged := Merge(es).entries;
    MergeFailsExactlyOnDisagreement(es);
    AgreePairs(es);
    hide MergeFrom, AllAgree;
    assert HasKey(es, e.key);
    MergeFromJoins([], es, e);
    var i :| 0 <= i < |merged| && merged[i].key == e.key;
    m := merged[i];
  }

  /** Merged entries can be applied exactly when the entries they came from can. */
  lemma MergedApplicable(sh: Shard, es: seq<Entry>)
    requires AllAgree(es)
    ensures Merge(es).Merged?
    ensures (forall m | m in Merge(es).entries :: Applicable(sh, m)) <==> forall e | e in es :: Applicable(sh, e)
  {
    MergeFailsExactlyOnDisagreement(es);
    hide MergeFrom, AllAgree, HasKey, DistinctKeys;
    if forall m | m in Merge(es).entries :: Applicable(sh, m) {
      forall e | e in es ensures Applicable(sh, e) {
        var m := TargetOf(es, e);
      }
    }
    if forall e | e in es :: Applicable(sh, e) {
      forall m | m in Merge(es).entries ensures Applicable(sh, m) {
        var e := SourceOf(es, m);
      }
    }
  }

  /** A barrier succeeds exactly when the entries it takes out agree and each fits its value. */
  lemma BarrierExact(sh: Shard, clock: int)
    ensures var reply := Barrier(sh, clock).1;
      && (reply.Applied? <==> Mergeable(sh, clock) && Appliable(sh, clock))
      && (reply == Failed(Conflict) <==> !Mergeable(sh, clock))
      && (reply == Failed(LengthMismatch) <==> Mergeable(sh, clock) && !Appliable(sh, clock))
  {
    var popped := GroupedIs(sh, clock);
    var grouped := Grouped(sh, clock);
    BarrierIs(sh, clock, popped, grouped);
    MergeableIs(sh, clock);
    MergeFailsExactlyOnDisagreement(grouped);
    hide Barrier, Grouped, Mergeable, Appliable, MergeFrom, AllAgree, Applicable, Apply;
    if AllAgree(grouped) {
      var es := Merge(grouped).entries;
      MergedApplicable(sh, grouped);
      SameApplicable(sh, popped);
      FitsByKey(popped, es);
      UnappliedExact(popped, es);
    }
  }

  lemma BarrierIs(sh: Shard, clock: int, popped: Shard, grouped: seq<Entry>)
    requires PopAll(sh, SyncOnly(sh, Sorted(sh.workers)), clock) == (popped, grouped)
    ensures Merge(grouped).MergeConflict? ==> Barrier(sh, clock) == (popped, Failed(Conflict))
    ensures Merge(grouped).Merged? ==>
      var done := Apply(popped, Merge(grouped).entries);
      && (done.ok ==> Barrier(sh, clock).1.Applied? && Barrier(sh, clock).0 == AdvanceAll(done.shard, SyncWorkers(sh), clock))
      && (!done.ok ==> Barrier(sh, clock) == (done.shard, Failed(LengthMismatch)))
  {
    hide PopAll, SyncOnly, Sorted, MergeFrom, Apply;
  }

  lemma SameApplicable(a: Shard, b: Shard)
    requires a.values == b.values
    ensures forall e :: Applicable(a, e) <==> Applicable(b, e)
  {
  }

  /** Some first entries changed their key's value as if alone; every other key kept its value. */
  ghost predicate FirstApplied(a: Shard, b: Shard, es: seq<Entry>, n: nat) {
    && n <= |es|
    && (forall i | 0 <= i < n :: Applicable(a, es[i]) && ValueOf(b, es[i].key) == ValueOf(ApplyOne(a, es[i]), es[i].key))
    && (forall i | n <= i < |es| :: ValueOf(b, es[i].key) == ValueOf(a, es[i].key))
    && (forall key | !HasKey(es, key) :: ValueOf(b, key) == ValueOf(a, key))
  }

  lemma ApplyFirst(sh: Shard, popped: Shard, es: seq<Entry>)
    requires DistinctKeys(es) && popped.values == sh.values
    ensures FirstApplied(sh, Apply(popped, es).shard, es, Apply(popped, es).count)
  {
    ApplyExact(popped, es);
    var next := Apply(popped, es).shard;
    forall i | 0 <= i < |es|
      ensures if i < Apply(popped, es).count
        then Applicable(sh, es[i]) && ValueOf(next, es[i].key) == ValueOf(ApplyOne(sh, es[i]), es[i].key)
        else ValueOf(next, es[i].key) == ValueOf(sh, es[i].key)
    {
      ApplyByKey(popped, es, i);
    }
    forall key | !HasKey(es, key) ensures ValueOf(next, key) == ValueOf(sh, key) {
      ApplyLeaves(popped, es, key);
    }
  }

  /**
   A barrier that raises has taken out the slots of every sync worker at its clock and advanced no
   clock. After a conflict nothing else has changed; after a length mismatch some first merged
   entries are applied, and the one that does not fit and those after it are gone.
   */
  lemma BarrierLeaves(sh: Shard, clock: int)
    requires !Barrier(sh, clock).1.Applied?
    ensures var (next, reply) := Barrier(sh, clock);
      && next.mode == sh.mode && next.workers == sh.workers && next.workerModes == sh.workerModes
      && next.appliedClock == sh.appliedClock && SlotsTaken(sh, next, SyncWorkers(sh), clock)
      && (reply == Failed(Conflict) ==> SameButPending(next, sh))
      && (reply == Failed(LengthMismatch) ==>
            && Merge(Grouped(sh, clock)).Merged?
            && exists n: nat :: n < |Merge(Grouped(sh, clock)).entries|
                 && !Applicable(sh, Merge(Grouped(sh, clock)).entries[n])
                 && FirstApplied(sh, next, Merge(Grouped(sh, clock)).entries, n))
  {
    var popped := GroupedIs(sh, clock);
    var grouped := Grouped(sh, clock);
    BarrierIs(sh, clock, popped, grouped);
    MergeFailsExactlyOnDisagreement(grouped);
    hide Barrier, Grouped, MergeFrom, AllAgree, Apply, SyncWorkers, FirstApplied, Applicable;
    if Merge(grouped).Merged? {
      var es := Merge(grouped).entries;
      var done := Apply(popped, es);
      ApplyFrame(popped, es);
      ApplyFirst(sh, popped, es);
      SameApplicable(sh, popped);
      Misfit(popped, es);
      SlotsTakenFrame(sh, popped, done.shard, clock);
      assert es == Merge(Grouped(sh, clock)).entries;
    }
  }

  lemma Misfit(sh: Shard, es: seq<Entry>)
    requires DistinctKeys(es) && !Apply(sh, es).ok
    ensures Apply(sh, es).count < |es| && !Applicable(sh, es[Apply(sh, es).count])
  {
    ApplyExact(sh, es);
    var n := Apply(sh, es).count;
    hide Apply;
    AbsentKey(sh, es[..n], es[n].key);
  }

  lemma SlotsTakenFrame(a: Shard, b: Shard, c: Shard, clock: int)
    requires SlotsTaken(a, b, SyncWorkers(a), clock) && c.pending == b.pending
    ensures SlotsTaken(a, c, SyncWorkers(a), clock)
  {
    hide SyncWorkers;
    forall s: Slot ensures Has(c, s) == Has(b, s) && PendingAt(c, s) == PendingAt(b, s) {
    }
  }

  /**
   Directly after a failed barrier the other pushes of its clock, whose work is gone as well, are not
   told: their next pass waits, or times out. What later answers may say is in SparseAnswers.
   */
  lemma FailedRoundTimesOut(sh: Shard, clock: int, w: Id, expired: bool)
    requires sh.mode == Sync && w in SyncWorkers(sh) && ClockOf(sh, w) < clock
    requires !Barrier(sh, clock).1.Applied?
    ensures var next := Barrier(sh, clock).0;
      Pass(next, w, clock, expired) == (next, if expired then Failed(BarrierTimeout) else Waiting)
  {
    BarrierLeaves(sh, clock);
    var next := Barrier(sh, clock).0;
    hide Barrier, Grouped, FirstApplied;
    assert w in SyncWorkers(next) && !Has(next, Slot(w, clock));
  }

  /** Two sync workers whose entries for a key disagree: all contributions of the clock are gone. */
  lemma DisagreementLosesWork(sh: Shard, clock: int, a: Id, b: Id, x: Entry, y: Entry)
    requires a in SyncWorkers(sh) && b in SyncWorkers(sh)
    requires x in PendingAt(sh, Slot(a, clock)) && y in PendingAt(sh, Slot(b, clock)) && !Agree(x, y)
    ensures Barrier(sh, clock).1 == Failed(Conflict) && Barrier(sh, clock).0.values == sh.values
    ensures forall w | w in SyncWorkers(sh) :: !Has(Barrier(sh, clock).0, Slot(w, clock))
  {
    BarrierExact(sh, clock);
    BarrierLeaves(sh, clock);
  }

  // ----- the flush of a switch to async -----

  /** The pending entries of some slots, one slot after the other. */
  function Listed(sh: Shard, slots: seq<Slot>): seq<Entry> {
    if slots == [] then [] else PendingAt(sh, slots[0]) + Listed(sh, slots[1..])
  }

  /** All pending entries in the order a flush takes them. */
  function Backlog(sh: Shard): seq<Entry> {
    Listed(sh, AllSlots(sh))
  }

  lemma {:induction false} ListedFrame(a: Shard, b: Shard, slots: seq<Slot>)
    requires forall s | s in slots :: PendingAt(a, s) == PendingAt(b, s)
    ensures Listed(a, slots) == Listed(b, slots)
  {
    if slots != [] {
      ListedFrame(a, b, slots[1..]);
    }
  }

  ghost predicate SameData(a: Shard, b: Shard) {
    a.values == b.values && a.versions == b.versions && a.globalClock == b.globalClock
  }

  lemma {:induction false} ApplySameData(a: Shard, b: Shard, es: seq<Entry>)
    requires SameData(a, b)
    ensures var x, y := Apply(a, es), Apply(b, es); SameData(x.shard, y.shard) && x.count == y.count && x.ok == y.ok
    decreases |es|
  {
    if es != [] && Applicable(a, es[0]) {
      ApplySameData(ApplyOne(a, es[0]), ApplyOne(b, es[0]), es[1..]);
    }
  }

  lemma {:induction false} ApplyConcat(sh: Shard, xs: seq<Entry>, ys: seq<Entry>)
    ensures var first := Apply(sh, xs);
      var second := Apply(first.shard, ys);
      Apply(sh, xs + ys) == if first.ok then Outcome(second.shard, first.count + second.count, second.ok) else first
    decreases |xs|
  {
    if xs == [] {
      assert xs + ys == ys;
    } else {
      assert (xs + ys)[0] == xs[0] && (xs + ys)[1..] == xs[1..] + ys;
      if Applicable(sh, xs[0]) {
        ApplyConcat(ApplyOne(sh, xs[0]), xs[1..], ys);
      }
    }
  }

  lemma SameFit(a: Shard, b: Shard, es: seq<Entry>)
    requires SameData(a, b)
    ensures AllFit(a, es) <==> AllFit(b, es)
  {
    ApplySameData(a, b, es);
    UnappliedExact(a, es);
    UnappliedExact(b, es);
  }

  function FlushFirst(sh: Shard, s: Slot): Shard {
    Advance(Apply(Pop(sh, s), PendingAt(sh, s)).shard, s.worker, s.clock)
  }

  lemma FirstFlushed(sh: Shard, s: Slot)
    ensures var next := FlushFirst(sh, s);
      && next.mode == sh.mode && next.workers == sh.workers && next.workerModes == sh.workerModes
      && SlotsGone(sh, next, [s]) && SlotsGone(sh, Apply(Pop(sh, s), PendingAt(sh, s)).shard, [s])
      && SameData(next, Apply(sh, PendingAt(sh, s)).shard)
      && Apply(sh, PendingAt(sh, s)).ok == Apply(Pop(sh, s), PendingAt(sh, s)).ok
      && Apply(sh, PendingAt(sh, s)).count == Apply(Pop(sh, s), PendingAt(sh, s)).count
  {
    var popped, es := Pop(sh, s), PendingAt(sh, s);
    ApplySameData(popped, sh, es);
    ApplyFrame(popped, es);
    hide Apply;
    PopGone(sh, s);
    GoneFrame(sh, popped, Apply(popped, es).shard, [s]);
    GoneFrame(sh, popped, FlushFirst(sh, s), [s]);
  }

  lemma PopGone(sh: Shard, s: Slot)
    ensures SlotsGone(sh, Pop(sh, s), [s])
  {
    forall t: Slot
      ensures (Has(Pop(sh, s), t) <==> Has(sh, t) && t !in [s])
        && (Has(Pop(sh, s), t) ==> PendingAt(Pop(sh, s), t) == PendingAt(sh, t))
    {
    }
  }

  lemma GoneFrame(a: Shard, b: Shard, c: Shard, slots: seq<Slot>)
    requires SlotsGone(a, b, slots) && c.pending == b.pending
    ensures SlotsGone(a, c, slots)
  {
    forall s: Slot ensures Has(c, s) == Has(b, s) && PendingAt(c, s) == PendingAt(b, s) {
    }
  }

  lemma GoneTwice(a: Shard, b: Shard, c: Shard, s: Slot, rest: seq<Slot>)
    requires SlotsGone(a, b, [s]) && SlotsGone(b, c, rest)
    ensures SlotsGone(a, c, [s] + rest)
  {
    hide Has, PendingAt;
    forall t: Slot ensures t in [s] + rest <==> t in [s] || t in rest {
    }
  }

  lemma OthersStay(sh: Shard, next: Shard, slots: seq<Slot>)
    requires slots != [] && DistinctSlots(slots) && SlotsGone(sh, next, [slots[0]])
    ensures forall t | t in slots[1..] :: PendingAt(next, t) == PendingAt(sh, t)
  {
    forall t | t in slots[1..] ensures PendingAt(next, t) == PendingAt(sh, t) {
      assert t != slots[0] && t !in [slots[0]];
      assert Has(next, t) == Has(sh, t);
    }
  }

  /** A flush applies the listed entries as one list would be, up to the same first misfit. */
  lemma {:induction false} FlushIsApply(sh: Shard, slots: seq<Slot>)
    requires DistinctSlots(slots)
    ensures var done, whole := Flush(sh, slots), Apply(sh, Listed(sh, slots));
      done.ok == whole.ok && SameData(done.shard, whole.shard) && (done.ok ==> done.count == whole.count)
    decreases |slots|
  {
    if slots != [] {
      var s, rest := slots[0], slots[1..];
      var es := PendingAt(sh, s);
      var next := FlushFirst(sh, s);
      FirstFlushed(sh, s);
      ApplyFrame(Pop(sh, s), es);
      ApplySameData(Pop(sh, s), sh, es);
      ApplyConcat(sh, es, Listed(sh, rest));
      OthersStay(sh, next, slots);
      ListedFrame(next, sh, rest);
      FlushIsApply(next, rest);
      ApplySameData(next, Apply(sh, es).shard, Listed(sh, rest));
      hide Apply, Pop, SlotsGone, PendingAt, Advance;
    }
  }

  lemma FlushUnfolds(sh: Shard, slots: seq<Slot>)
    requires slots != []
    ensures var first := Apply(Pop(sh, slots[0]), PendingAt(sh, slots[0]));
      var later := Flush(FlushFirst(sh, slots[0]), slots[1..]);
      Flush(sh, slots) == if first.ok then Outcome(later.shard, first.count + later.count, later.ok) else first
  {
  }

  lemma StopsAtOnce(sh: Shard, slots: seq<Slot>)
    requires slots != [] && !Apply(Pop(sh, slots[0]), PendingAt(sh, slots[0])).ok
    ensures Flush(sh, slots[..0]).ok && Flush(sh, slots[..1]) == Flush(sh, slots)
    ensures var next := Flush(sh, slots).shard;
      && next.mode == sh.mode && next.workers == sh.workers && next.workerModes == sh.workerModes
      && SlotsGone(sh, next, slots[..1])
  {
    FirstFlushed(sh, slots[0]);
    ApplyFrame(Pop(sh, slots[0]), PendingAt(sh, slots[0]));
    hide Apply, SlotsGone, PendingAt;
    assert slots[..1] == [slots[0]];
    FlushUnfolds(sh, slots);
    FlushUnfolds(sh, slots[..1]);
  }

  /** A flush that raises has taken out the slots before the failing one and that one, no other. */
  lemma {:induction false} FlushStops(sh: Shard, slots: seq<Slot>) returns (n: nat)
    requires !Flush(sh, slots).ok
    ensures n < |slots| && Flush(sh, slots[..n]).ok && Flush(sh, slots[..n + 1]) == Flush(sh, slots)
    ensures var next := Flush(sh, slots).shard;
      && next.mode == sh.mode && next.workers == sh.workers && next.workerModes == sh.workerModes
      && SlotsGone(sh, next, slots[..n + 1])
    decreases |slots|
  {
    var s, rest := slots[0], slots[1..];
    var first, next := Apply(Pop(sh, s), PendingAt(sh, s)), FlushFirst(sh, s);
    hide *;
    FlushUnfolds(sh, slots);
    if !first.ok {
      n := 0;
      StopsAtOnce(sh, slots);
    } else {
      FirstFlushed(sh, s);
      var m := FlushStops(next, rest);
      n := m + 1;
      FlushPrefix(sh, slots, m);
      FlushPrefix(sh, slots, n);
      FirstAndMore(slots, n);
      GoneTwice(sh, next, Flush(sh, slots).shard, s, rest[..n]);
    }
  }

  lemma FirstAndMore(slots: seq<Slot>, k: nat)
    requires k < |slots|
    ensures slots[..k + 1] == [slots[0]] + slots[1..][..k]
  {
  }

  /** A flush of some first slots whose first one is applied. */
  lemma FlushPrefix(sh: Shard, slots: seq<Slot>, k: nat)
    requires k < |slots| && Apply(Pop(sh, slots[0]), PendingAt(sh, slots[0])).ok
    ensures var first := Apply(Pop(sh, slots[0]), PendingAt(sh, slots[0]));
      var later := Flush(FlushFirst(sh, slots[0]), slots[1..][..k]);
      Flush(sh, slots[..k + 1]) == Outcome(later.shard, first.count + later.count, later.ok)
  {
    hide *;
    var part := slots[..k + 1];
    assert part[0] == slots[0] && part[1..] == slots[1..][..k];
    FlushUnfolds(sh, part);
  }

  lemma {:induction false} SameSlotsFrom(a: Shard, b: Shard, ws: seq<Id>)
    requires a.pending == b.pending
    ensures SlotsFrom(a, ws) == SlotsFrom(b, ws)
  {
    if ws != [] {
      SameSlotsFrom(a, b, ws[1..]);
    }
  }

  lemma SameSlots(a: Shard, b: Shard)
    requires a.pending == b.pending
    ensures AllSlots(a) == AllSlots(b)
  {
    SameSlotsFrom(a, b, Sorted(a.pending.Keys));
  }

  function Declared(sh: Shard, w: Id): Shard {
    sh.(mode := Async, workerModes := Declare(sh, Async, w))
  }

  /** A switch fails exactly when it flushes and some pending entry does not fit in its turn. */
  lemma ModeFailsExactly(sh: Shard, mode: Mode, w: Id)
    ensures SetMode(sh, mode, w).1.ModeFailed? <==> sh.mode == Sync && mode == Async && !AllFit(sh, Backlog(sh))
  {
    if sh.mode == Sync && mode == Async {
      var declared := Declared(sh, w);
      assert SetMode(sh, mode, w).1.ModeFailed? <==> !Flush(declared, AllSlots(declared)).ok;
      hide *;
      FlushFits(sh, declared, w);
    }
  }

  lemma FlushFits(sh: Shard, declared: Shard, w: Id)
    requires declared == Declared(sh, w)
    ensures Flush(declared, AllSlots(declared)).ok <==> AllFit(sh, Backlog(sh))
  {
    SameSlots(sh, declared);
    AllSlotsComplete(sh);
    hide AllSlots, Flush;
    PrefixFits(declared, sh, AllSlots(sh));
  }

  /** The slots before number n are applied and gone, that one is gone with the entries before its first misfit. */
  ghost predicate StoppedAt(sh: Shard, next: Shard, slots: seq<Slot>, n: nat) {
    && n < |slots| && AllFit(sh, Listed(sh, slots[..n])) && !AllFit(sh, Listed(sh, slots[..n + 1]))
    && SlotsGone(sh, next, slots[..n + 1])
    && SameData(next, Apply(sh, Listed(sh, slots[..n + 1])).shard)
  }

  ghost predicate LaterPending(next: Shard, slots: seq<Slot>, n: nat) {
    forall i | n < i < |slots| :: Has(next, slots[i])
  }

  /**
   A failed switch leaves an async shard, stopped at some slot; the later slots are still pending, on
   a shard whose mode never closes a barrier.
   */
  lemma ModeFailureLeaves(sh: Shard, w: Id)
    requires SetMode(sh, Async, w).1.ModeFailed?
    ensures var next, slots := SetMode(sh, Async, w).0, AllSlots(sh);
      && next.mode == Async && exists n: nat :: StoppedAt(sh, next, slots, n)
    ensures var next, slots := SetMode(sh, Async, w).0, AllSlots(sh);
      forall n: nat | StoppedAt(sh, next, slots, n) ::
        LaterPending(next, slots, n) && (n + 1 < |slots| ==> !PendingIsSync(next))
  {
    hide *;
    var next, slots := SetMode(sh, Async, w).0, AllSlots(sh);
    ModeFailureIs(sh, w);
    FailedFlushStops(sh, Declared(sh, w), next, slots);
    forall n: nat | StoppedAt(sh, next, slots, n)
      ensures LaterPending(next, slots, n) && (n + 1 < |slots| ==> !PendingIsSync(next))
    {
      LaterStay(sh, next, slots, n);
    }
  }

  lemma ModeFailureIs(sh: Shard, w: Id)
    requires SetMode(sh, Async, w).1.ModeFailed?
    ensures var declared := Declared(sh, w);
      && declared.pending == sh.pending && declared.mode == Async && SameData(declared, sh)
      && SetMode(sh, Async, w).0 == Flush(declared, AllSlots(sh)).shard && !Flush(declared, AllSlots(sh)).ok
    ensures DistinctSlots(AllSlots(sh)) && forall s | s in AllSlots(sh) :: Has(sh, s)
  {
    SameSlots(sh, Declared(sh, w));
    AllSlotsComplete(sh);
    hide AllSlots, Flush;
  }

  lemma FailedFlushStops(sh: Shard, declared: Shard, next: Shard, slots: seq<Slot>)
    requires declared.pending == sh.pending && declared.mode == Async && SameData(declared, sh)
    requires next == Flush(declared, slots).shard && !Flush(declared, slots).ok && DistinctSlots(slots)
    ensures next.mode == Async && exists n: nat :: StoppedAt(sh, next, slots, n)
  {
    hide *;
    var n := FlushStops(declared, slots);
    PrefixDistinct(slots, n);
    PrefixDistinct(slots, n + 1);
    PrefixFits(declared, sh, slots[..n]);
    PrefixFits(declared, sh, slots[..n + 1]);
    FlushedAsList(declared, sh, slots[..n + 1], next);
    GoneFrom(sh, declared, next, slots[..n + 1]);
    StopIs(sh, next, slots, n);
  }

  lemma StopIs(sh: Shard, next: Shard, slots: seq<Slot>, n: nat)
    requires n < |slots| && AllFit(sh, Listed(sh, slots[..n])) && !AllFit(sh, Listed(sh, slots[..n + 1]))
    requires SlotsGone(sh, next, slots[..n + 1]) && SameData(next, Apply(sh, Listed(sh, slots[..n + 1])).shard)
    ensures StoppedAt(sh, next, slots, n)
  {
    hide AllFit, Listed, SlotsGone, SameData, Apply;
  }

  lemma PrefixDistinct(slots: seq<Slot>, n: nat)
    requires DistinctSlots(slots) && n <= |slots|
    ensures DistinctSlots(slots[..n])
  {
  }

  lemma FlushedAsList(a: Shard, b: Shard, slots: seq<Slot>, next: Shard)
    requires DistinctSlots(slots) && a.pending == b.pending && SameData(a, b) && next == Flush(a, slots).shard
    ensures SameData(next, Apply(b, Listed(b, slots)).shard)
  {
    FlushIsApply(a, slots);
    ApplySameData(a, b, Listed(a, slots));
    ListedFrame(a, b, slots);
  }

  lemma PrefixFits(a: Shard, b: Shard, slots: seq<Slot>)
    requires DistinctSlots(slots) && a.pending == b.pending && SameData(a, b)
    ensures Flush(a, slots).ok <==> AllFit(b, Listed(b, slots))
  {
    FlushIsApply(a, slots);
    UnappliedExact(a, Listed(a, slots));
    ListedFrame(a, b, slots);
    SameFit(a, b, Listed(b, slots));
  }

  lemma GoneFrom(a: Shard, b: Shard, c: Shard, slots: seq<Slot>)
    requires SlotsGone(b, c, slots) && a.pending == b.pending
    ensures SlotsGone(a, c, slots)
  {
    forall s: Slot ensures Has(a, s) == Has(b, s) && PendingAt(a, s) == PendingAt(b, s) {
    }
  }

  lemma LaterStay(sh: Shard, next: Shard, slots: seq<Slot>, n: nat)
    requires DistinctSlots(slots) && (forall s | s in slots :: Has(sh, s))
    requires StoppedAt(sh, next, slots, n) && next.mode == Async
    ensures LaterPending(next, slots, n)
    ensures n + 1 < |slots| ==> !PendingIsSync(next)
  {
    hide Has, PendingAt, AllFit, Listed, Apply;
    forall i | n < i < |slots| ensures Has(next, slots[i]) {
      assert slots[i] in slots && slots[i] !in slots[..n + 1];
    }
    if n + 1 < |slots| {
      assert Has(next, slots[n + 1]);
    }
  }

  // ----- each failure happens, from a new shard -----

  lemma SamePending(a: Shard, b: Shard)
    requires a.pending == b.pending
    ensures SlotsGone(a, b, [])
  {
    forall s: Slot ensures Has(a, s) == Has(b, s) && PendingAt(a, s) == PendingAt(b, s) {
    }
  }

  lemma OpenedSlots(sh: Shard, w: Id, clock: int, current: seq<Entry>)
    ensures var s, next := Slot(w, clock), Opened(sh, w, clock, current);
      && next.values == sh.values && Has(next, s) && PendingAt(next, s) == current
      && (forall t: Slot | t != s :: Has(next, t) == Has(sh, t) && PendingAt(next, t) == PendingAt(sh, t))
  {
  }

  function TwoWorkers(initial: map<Key, seq<real>>): Shard {
    Register(Register(New(Sync, initial), 1).0, 2).0
  }

  lemma TwoWorkersAre(initial: map<Key, seq<real>>)
    ensures var sh := TwoWorkers(initial);
      && sh.mode == Sync && sh.values == initial && SyncWorkers(sh) == sh.workers == {1, 2}
      && (forall s: Slot :: !Has(sh, s)) && (forall w: Id :: ClockOf(sh, w) == -1)
  {
    assert TwoWorkers(initial) == Enroll(Enroll(New(Sync, initial), 1), 2);
  }

  /** A first push of one entry by an idle sync worker. */
  lemma SinglePush(sh: Shard, w: Id, clock: int, x: Entry, expired: bool)
    requires sh.mode == Sync && w in SyncWorkers(sh) && w != 0 && clock >= 0 && !Has(sh, Slot(w, clock))
    ensures Push(sh, w, clock, [x], expired) == Pass(Opened(sh, w, clock, [x]), w, clock, expired)
  {
    assert MergeInto([], x) == Merged([x]);
    assert [x][1..] == [];
    assert MergeFrom([], [x]) == MergeFrom([x], []) == Merged([x]);
    PushUnfolds(sh, w, clock, [x], [x], [x], expired);
  }

  lemma OpenedStays(sh: Shard, w: Id, clock: int, current: seq<Entry>)
    ensures var next := Opened(sh, w, clock, current);
      && SyncWorkers(next) == SyncWorkers(sh) && next.mode == sh.mode && next.workers == sh.workers
      && next.appliedClock == sh.appliedClock
  {
  }

  /** Worker 1 waits with an entry in its slot, and nobody else has anything pending. */
  lemma FirstPushWaits(initial: map<Key, seq<real>>, x: Entry)
    ensures var sh := TwoWorkers(initial);
      Push(sh, 1, 0, [x], false) == (Opened(sh, 1, 0, [x]), Waiting)
  {
    var sh := TwoWorkers(initial);
    TwoWorkersAre(initial);
    hide TwoWorkers;
    SinglePush(sh, 1, 0, x, false);
    OpenedSlots(sh, 1, 0, [x]);
    OpenedStays(sh, 1, 0, [x]);
    hide Opened, Push;
    assert 2 in SyncWorkers(sh) && !Has(Opened(sh, 1, 0, [x]), Slot(2, 0));
  }

  /** Two workers push entries that disagree: the second push raises and both contributions are gone. */
  lemma ConflictLosesBoth(initial: map<Key, seq<real>>, x: Entry, y: Entry, expired: bool)
    requires !Agree(x, y)
    ensures var waiting := Push(TwoWorkers(initial), 1, 0, [x], false).0;
      var (next, reply) := Push(waiting, 2, 0, [y], expired);
      && reply == Failed(Conflict) && next.values == initial
      && !Has(next, Slot(1, 0)) && !Has(next, Slot(2, 0))
  {
    var sh := TwoWorkers(initial);
    TwoWorkersAre(initial);
    FirstPushWaits(initial, x);
    hide TwoWorkers, Opened, Push, Barrier, Agree;
    var waiting := Opened(sh, 1, 0, [x]);
    OpenedSlots(sh, 1, 0, [x]);
    OpenedStays(sh, 1, 0, [x]);
    SinglePush(waiting, 2, 0, y, expired);
    var full := Opened(waiting, 2, 0, [y]);
    OpenedSlots(waiting, 2, 0, [y]);
    OpenedStays(waiting, 2, 0, [y]);
    assert x in PendingAt(full, Slot(1, 0)) && y in PendingAt(full, Slot(2, 0));
    assert Pass(full, 2, 0, expired) == Barrier(full, 0);
    DisagreementLosesWork(full, 0, 1, 2, x, y);
    assert 1 in SyncWorkers(full) && 2 in SyncWorkers(full);
  }

  /** One worker adds an entry of the wrong length: its push raises and the entry is gone. */
  lemma MismatchLosesWork(initial: map<Key, seq<real>>, x: Entry, expired: bool)
    requires x.op == Add && x.key in initial && |initial[x.key]| != |x.values|
    ensures var sh := Register(New(Sync, initial), 1).0;
      var (next, reply) := Push(sh, 1, 0, [x], expired);
      && reply == Failed(LengthMismatch) && next.values == initial && !Has(next, Slot(1, 0))
  {
    var sh := Register(New(Sync, initial), 1).0;
    assert SyncWorkers(sh) == {1} && !Has(sh, Slot(1, 0)) && ClockOf(sh, 1) == -1;
    SinglePush(sh, 1, 0, x, expired);
    var full := Opened(sh, 1, 0, [x]);
    OpenedSlots(sh, 1, 0, [x]);
    OpenedStays(sh, 1, 0, [x]);
    hide Opened, Push, Barrier, Register;
    assert Pass(full, 1, 0, expired) == Barrier(full, 0);
    LoneMisfit(full, 1, 0, x);
  }

  lemma LoneGroup(sh: Shard, w: Id, clock: int, x: Entry)
    requires SyncWorkers(sh) == {w} && PendingAt(sh, Slot(w, clock)) == [x] && !Applicable(sh, x)
    ensures Mergeable(sh, clock) && !Appliable(sh, clock)
    ensures forall e | e in Grouped(sh, clock) :: e == x
  {
    MergeableIs(sh, clock);
    var popped := GroupedIs(sh, clock);
    hide *;
    assert w in SyncWorkers(sh) && x in PendingAt(sh, Slot(w, clock));
    OnlyOneEntry(Grouped(sh, clock), x);
  }

  lemma OnlyOneEntry(es: seq<Entry>, x: Entry)
    requires forall e | e in es :: e == x
    ensures AllAgree(es)
  {
    assert forall i | 0 <= i < |es| :: es[i] in es;
  }

  lemma MergedMisfits(sh: Shard, es: seq<Entry>, x: Entry)
    requires Merge(es).Merged? && !Applicable(sh, x) && forall e | e in es :: e == x
    ensures forall m | m in Merge(es).entries :: !Applicable(sh, m)
  {
    MergeFailsExactlyOnDisagreement(es);
    hide MergeFrom;
    forall m | m in Merge(es).entries ensures !Applicable(sh, m) {
      var source := SourceOf(es, m);
    }
  }

  lemma LoneMisfit(sh: Shard, w: Id, clock: int, x: Entry)
    requires SyncWorkers(sh) == {w} && PendingAt(sh, Slot(w, clock)) == [x] && !Applicable(sh, x)
    ensures var (next, reply) := Barrier(sh, clock);
      reply == Failed(LengthMismatch) && next.values == sh.values && !Has(next, Slot(w, clock))
  {
    LoneGroup(sh, w, clock, x);
    BarrierExact(sh, clock);
    BarrierLeaves(sh, clock);
    assert w in SyncWorkers(sh);
    hide Barrier, Grouped, SyncWorkers, PendingAt, Mergeable, Appliable, FirstApplied, Has, Applicable, MergeFrom, Merge;
    var next := Barrier(sh, clock).0;
    var es := Merge(Grouped(sh, clock)).entries;
    MergedMisfits(sh, Grouped(sh, clock), x);
    var n: nat :| n < |es| && FirstApplied(sh, next, es, n);
    assert es[0] in es;
    NoneApplied(sh, next, es, n);
  }

  lemma NoneApplied(a: Shard, b: Shard, es: seq<Entry>, n: nat)
    requires es != [] && !Applicable(a, es[0]) && FirstApplied(a, b, es, n)
    ensures b.values == a.values
  {
    forall key ensures ValueOf(b, key) == ValueOf(a, key) {
    }
    assert forall key :: key in b.values ==> key in a.values by {
      assert forall key :: key in b.values <==> |ValueOf(b, key)| == 1;
    }
    assert forall key | key in a.values :: ValueOf(a, key)[0] == a.values[key];
  }

  /**
   A switch while two pushes wait, the first with an entry that does not fit: it fails with the
   shard async, the first entry gone and the second still pending.
   */
  lemma SwitchStrandsWork(initial: map<Key, seq<real>>, x: Entry, y: Entry)
    requires x.op == Add && x.key in initial && |initial[x.key]| != |x.values|
    ensures var waiting := Push(Push(TwoWorkers(initial), 1, 0, [x], false).0, 2, 1, [y], false).0;
      var (next, reply) := SetMode(waiting, Async, 0);
      && waiting.mode == Sync && waiting.workers == {1, 2}
      && reply == ModeFailed(LengthMismatch) && next.mode == Async && next.values == initial
      && !Has(next, Slot(1, 0)) && Has(next, Slot(2, 1)) && PendingAt(next, Slot(2, 1)) == [y]
  {
    var sh := TwoWorkers(initial);
    TwoWorkersAre(initial);
    FirstPushWaits(initial, x);
    hide TwoWorkers;
    var first := Opened(sh, 1, 0, [x]);
    OpenedSlots(sh, 1, 0, [x]);
    OpenedStays(sh, 1, 0, [x]);
    SinglePush(first, 2, 1, y, false);
    var both := Opened(first, 2, 1, [y]);
    OpenedSlots(first, 2, 1, [y]);
    OpenedStays(first, 2, 1, [y]);
    hide Opened, Push;
    assert 1 in SyncWorkers(both) && !Has(both, Slot(1, 1));
    assert Pass(both, 2, 1, false) == (both, Waiting);
    StrandedFlush(both, x);
  }

  predicate Earlier(s: Slot, t: Slot) {
    s.worker < t.worker || (s.worker == t.worker && s.clock < t.clock)
  }

  ghost predicate Ordered(slots: seq<Slot>) {
    forall i, j | 0 <= i < j < |slots| :: Earlier(slots[i], slots[j])
  }

  /** The flush goes by worker id and, for one worker, by clock. */
  lemma {:induction false} SlotsInOrder(sh: Shard, ws: seq<Id>)
    requires Increasing(ws)
    ensures Ordered(SlotsFrom(sh, ws))
    decreases |ws|
  {
    if ws != [] {
      var clocks := Sorted(PendingOf(sh, ws[0]).Keys);
      var first, rest := SlotsOf(ws[0], clocks), SlotsFrom(sh, ws[1..]);
      SlotsInOrder(sh, ws[1..]);
      SlotsFromComplete(sh, ws[1..]);
      assert SlotsFrom(sh, ws) == first + rest;
      hide Sorted, SlotsFrom, PendingOf, Has;
      forall t | t in rest ensures ws[0] < t.worker {
        var i :| 0 <= i < |ws[1..]| && ws[1..][i] == t.worker;
        assert ws[i + 1] == t.worker;
      }
      forall i, j | 0 <= i < j < |first + rest| ensures Earlier((first + rest)[i], (first + rest)[j]) {
        if i < |first| <= j {
          assert (first + rest)[j] in rest;
        }
      }
    }
  }

  lemma StrandedFlush(sh: Shard, x: Entry)
    requires sh.mode == Sync && !Applicable(sh, x) && PendingAt(sh, Slot(1, 0)) == [x]
    requires forall s :: Has(sh, s) <==> s == Slot(1, 0) || s == Slot(2, 1)
    ensures var (next, reply) := SetMode(sh, Async, 0);
      && reply == ModeFailed(LengthMismatch) && next.mode == Async && next.values == sh.values
      && !Has(next, Slot(1, 0)) && Has(next, Slot(2, 1)) && PendingAt(next, Slot(2, 1)) == PendingAt(sh, Slot(2, 1))
  {
    var slots, declared := AllSlots(sh), Declared(sh, 0);
    AllSlotsComplete(sh);
    SlotsInOrder(sh, Sorted(sh.pending.Keys));
    SameSlots(sh, declared);
    FirstSlot(slots, Slot(1, 0), Slot(2, 1));
    SamePending(sh, declared);
    var popped := Pop(declared, Slot(1, 0));
    PopGone(declared, Slot(1, 0));
    assert PendingAt(declared, Slot(1, 0)) == [x] && !Applicable(popped, x);
    assert Flush(declared, slots) == Outcome(popped, 0, false);
    assert SetMode(sh, Async, 0) == (popped, ModeFailed(LengthMismatch));
    hide AllSlots, Pop, SetMode, Flush, Has, PendingAt;
    assert Slot(1, 0) in [Slot(1, 0)] && Slot(2, 1) !in [Slot(1, 0)];
    assert Has(sh, Slot(2, 1));
  }

  lemma FirstSlot(slots: seq<Slot>, s: Slot, t: Slot)
    requires Ordered(slots) && Earlier(s, t) && forall u :: u in slots <==> u == s || u == t
    ensures slots != [] && slots[0] == s
  {
    assert s in slots;
    var i :| 0 <= i < |slots| && slots[i] == s;
    assert slots[0] in slots;
    assert i > 0 ==> Earlier(slots[0], slots[i]);
  }
}
