/**
 The account of a shard's work over any requests at all: what the values, the pending table and the
 dropped entries hold together is what was there initially and what was accepted since; and the
 exact condition under which a run drops nothing.
 */
module SparseLosses {
  import opened SparseProtocol
  import opened SparseShard
  import opened SparseLedger
  import opened SparseFailures

  // ----- requests, what they accept and what they drop -----

  datatype Request =
    | Registering(worker: Id)
    | Pushing(worker: Id, clock: int, entries: seq<Entry>, expired: bool)
    | Waking(worker: Id, clock: int, expired: bool)
    | Switching(mode: Mode, worker: Id)

  function Serve(sh: Shard, r: Request): Shard {
    match r
    case Registering(w) => Register(sh, w).0
    case Pushing(w, clock, entries, expired) => Push(sh, w, clock, entries, expired).0
    case Waking(w, clock, expired) => Pass(sh, w, clock, expired).0
    case Switching(mode, w) => SetMode(sh, mode, w).0
  }

  function After(sh: Shard, rs: seq<Request>): Shard
    decreases |rs|
  {
    if rs == [] then sh else After(Serve(sh, rs[0]), rs[1..])
  }

  function Known(sh: Shard, w: Id): Shard {
    if w in sh.workers then sh else Enroll(sh, w)
  }

  predicate AppliesAtOnce(sh: Shard, w: Id) {
    Known(sh, w).mode == Async || ModeOf(Known(sh, w), w) == Async
  }

  /** Named worker, clock not negative, entries that agree and, unless applied at once, can join the slot. */
  ghost predicate Accepts(sh: Shard, w: Id, clock: int, entries: seq<Entry>) {
    && w != 0 && clock >= 0 && AllAgree(entries)
    && (AppliesAtOnce(sh, w) || forall x, e | x in PendingAt(sh, Slot(w, clock)) && e in entries :: Agree(x, e))
  }

  /** What an accepted push that waits puts into its slot. */
  function JoinedSlot(sh: Shard, w: Id, clock: int, entries: seq<Entry>): MergeResult {
    match Merge(entries)
    case MergeConflict => MergeConflict
    case Merged(normalized) => MergeFrom(PendingAt(sh, Slot(w, clock)), normalized)
  }

  /** The shard in which an accepted push that waits makes its first pass. */
  function Begun(sh: Shard, w: Id, clock: int, entries: seq<Entry>): Shard {
    match JoinedSlot(sh, w, clock, entries)
    case MergeConflict => sh
    case Merged(current) => Opened(Known(sh, w), w, clock, current)
  }

  /** The pass of this push closes the barrier. */
  predicate Closes(sh: Shard, w: Id, clock: int) {
    sh.mode == Sync && !(ClockOf(sh, w) >= clock && !Has(sh, Slot(w, clock))) && Ready(sh, clock)
  }

  ghost function Taken(sh: Shard, r: Request): seq<Entry> {
    if r.Pushing? && Accepts(sh, r.worker, r.clock, r.entries) then r.entries else []
  }

  function BarrierDrops(sh: Shard, clock: int): seq<Entry> {
    var grouped := Grouped(sh, clock);
    match Merge(grouped)
    case MergeConflict => grouped
    case Merged(es) => Unapplied(sh, es)
  }

  function PassDrops(sh: Shard, w: Id, clock: int): seq<Entry> {
    if Closes(sh, w, clock) then BarrierDrops(sh, clock) else []
  }

  function FlushDrops(sh: Shard, slots: seq<Slot>): seq<Entry>
    decreases |slots|
  {
    if slots == [] then []
    else if !Apply(sh, PendingAt(sh, slots[0])).ok then Unapplied(sh, PendingAt(sh, slots[0]))
    else FlushDrops(FlushFirst(sh, slots[0]), slots[1..])
  }

  /** The accepted entries that leave the shard unapplied. */
  ghost function Dropped(sh: Shard, r: Request): seq<Entry> {
    match r
    case Registering(_) => []
    case Pushing(w, clock, entries, _) =>
      if !Accepts(sh, w, clock, entries) then []
      else if AppliesAtOnce(sh, w) then
        (match Merge(entries) case MergeConflict => [] case Merged(normalized) => Unapplied(sh, normalized))
      else PassDrops(Begun(sh, w, clock, entries), w, clock)
    case Waking(w, clock, _) => PassDrops(sh, w, clock)
    case Switching(mode, _) => if sh.mode == Sync && mode == Async then FlushDrops(sh, AllSlots(sh)) else []
  }

  ghost predicate CleanPass(sh: Shard, w: Id, clock: int) {
    Closes(sh, w, clock) ==> Mergeable(sh, clock) && Appliable(sh, clock)
  }

  /** The conditions under which a request drops nothing, read off the tables before it. */
  ghost predicate Clean(sh: Shard, r: Request) {
    match r
    case Registering(_) => true
    case Pushing(w, clock, entries, _) =>
      Accepts(sh, w, clock, entries) ==>
        if AppliesAtOnce(sh, w) then forall e | e in entries :: Applicable(sh, e)
        else CleanPass(Begun(sh, w, clock, entries), w, clock)
    case Waking(w, clock, _) => CleanPass(sh, w, clock)
    case Switching(mode, _) => sh.mode == Sync && mode == Async ==> AllFit(sh, Backlog(sh))
  }

  // ----- a request drops nothing exactly when it is clean -----

  lemma MergedClean(sh: Shard, es: seq<Entry>)
    requires AllAgree(es)
    ensures Merge(es).Merged?
    ensures Unapplied(sh, Merge(es).entries) == [] <==> forall e | e in es :: Applicable(sh, e)
  {
    MergeFailsExactlyOnDisagreement(es);
    var merged := Merge(es).entries;
    MergedApplicable(sh, es);
    FitsByKey(sh, merged);
    UnappliedExact(sh, merged);
  }

  lemma BarrierClean(sh: Shard, clock: int)
    ensures BarrierDrops(sh, clock) == [] <==> Mergeable(sh, clock) && Appliable(sh, clock)
  {
    var grouped := Grouped(sh, clock);
    MergeableIs(sh, clock);
    MergeFailsExactlyOnDisagreement(grouped);
    hide Grouped, Mergeable, Appliable, MergeFrom, Unapplied;
    if AllAgree(grouped) {
      MergedClean(sh, grouped);
    } else {
      assert grouped != [];
    }
  }

  lemma {:induction false} FlushClean(sh: Shard, slots: seq<Slot>)
    requires DistinctSlots(slots)
    ensures FlushDrops(sh, slots) == [] <==> Flush(sh, slots).ok
    decreases |slots|
  {
    if slots != [] {
      FirstFlushed(sh, slots[0]);
      UnappliedExact(sh, PendingAt(sh, slots[0]));
      FlushUnfolds(sh, slots);
      FlushClean(FlushFirst(sh, slots[0]), slots[1..]);
      hide Apply, Pop, FlushFirst, Unapplied, AllFit, Flush;
    }
  }

  lemma DropsNothingIfClean(sh: Shard, r: Request)
    ensures Dropped(sh, r) == [] <==> Clean(sh, r)
  {
    hide Unapplied, BarrierDrops, Mergeable, Appliable, Closes, Begun, AllFit, Listed, AllSlots, Flush, Applicable, MergeFrom, FlushDrops, DistinctSlots;
    match r
    case Registering(_) =>
    case Pushing(w, clock, entries, _) =>
      if Accepts(sh, w, clock, entries) {
        if AppliesAtOnce(sh, w) {
          MergedClean(sh, entries);
        } else {
          BarrierClean(Begun(sh, w, clock, entries), clock);
        }
      }
    case Waking(w, clock, _) => BarrierClean(sh, clock);
    case Switching(mode, w) =>
      AllSlotsComplete(sh);
      FlushClean(sh, AllSlots(sh));
      PrefixFits(sh, sh, AllSlots(sh));
  }

  // ----- the account of one coordinate -----

  ghost predicate OnlyAdds(es: seq<Entry>, k: Key) {
    forall e | e in es && e.key == k :: e.op == Add
  }

  /** Slots hold one entry a key, and only additive ones for the key looked at. */
  ghost predicate Orderly(sh: Shard, k: Key) {
    forall s: Slot | Has(sh, s) :: DistinctKeys(PendingAt(sh, s)) && OnlyAdds(PendingAt(sh, s), k)
  }

  function Waits(sh: Shard, k: Key, j: nat): real {
    SlotsTotal(sh, AllSlots(sh), k, j)
  }

  /** What the stored value and the pending table together hold of a coordinate. */
  function Held(sh: Shard, k: Key, j: nat): real {
    Stored(sh, k, j) + Waits(sh, k, j)
  }

  lemma {:induction false} SlotsTotalRemove(sh: Shard, slots: seq<Slot>, i: nat, k: Key, j: nat)
    requires i < |slots|
    ensures SlotsTotal(sh, slots, k, j) ==
            Total(PendingAt(sh, slots[i]), k, j) + SlotsTotal(sh, slots[..i] + slots[i + 1..], k, j)
  {
    hide Total;
    if i == 0 {
      assert slots[..0] + slots[1..] == slots[1..];
    } else {
      SlotsTotalRemove(sh, slots[1..], i - 1, k, j);
      var others := slots[..i] + slots[i + 1..];
      assert others[0] == slots[0] && others[1..] == slots[1..][..i - 1] + slots[1..][i..];
    }
  }

  /** The order in which slots are listed does not matter. */
  lemma {:induction false} SlotsTotalPermuted(sh: Shard, xs: seq<Slot>, ys: seq<Slot>, k: Key, j: nat)
    requires DistinctSlots(xs) && DistinctSlots(ys) && forall s :: s in xs <==> s in ys
    ensures SlotsTotal(sh, xs, k, j) == SlotsTotal(sh, ys, k, j)
  {
    EmptyOrNot(ys);
    if xs != [] {
      assert xs[0] in ys;
      var i :| 0 <= i < |ys| && ys[i] == xs[0];
      var others := ys[..i] + ys[i + 1..];
      SlotsTotalRemove(sh, ys, i, k, j);
      hide Total, PendingAt;
      RestOf(xs, ys, i);
      SlotsTotalPermuted(sh, xs[1..], others, k, j);
    }
  }

  lemma EmptyOrNot(slots: seq<Slot>)
    ensures slots == [] || exists s :: s in slots
  {
    assert slots == [] || slots[0] in slots;
  }

  lemma RestOf(xs: seq<Slot>, ys: seq<Slot>, i: nat)
    requires DistinctSlots(xs) && DistinctSlots(ys) && forall s :: s in xs <==> s in ys
    requires xs != [] && i < |ys| && ys[i] == xs[0]
    ensures DistinctSlots(ys[..i] + ys[i + 1..])
    ensures forall s :: s in xs[1..] <==> s in ys[..i] + ys[i + 1..]
  {
    var others := ys[..i] + ys[i + 1..];
    assert forall s :: s in xs <==> s == xs[0] || s in xs[1..];
    assert forall m | 0 <= m < |others| :: others[m] == if m < i then ys[m] else ys[m + 1];
    forall s ensures s in others <==> s in ys && s != ys[i] {
      if s in ys && s != ys[i] {
        var m :| 0 <= m < |ys| && ys[m] == s;
        assert others[if m < i then m else m - 1] == s;
      }
    }
  }

  lemma WaitsFrame(a: Shard, b: Shard, k: Key, j: nat)
    requires SlotsGone(a, b, [])
    ensures Waits(a, k, j) == Waits(b, k, j)
  {
    AllSlotsComplete(a);
    AllSlotsComplete(b);
    var xs, ys := AllSlots(a), AllSlots(b);
    hide AllSlots, Total;
    SlotsTotalPermuted(a, xs, ys, k, j);
    SlotsTotalFrame(a, b, ys, k, j);
  }

  lemma PopWaits(sh: Shard, s: Slot, k: Key, j: nat)
    ensures Waits(Pop(sh, s), k, j) + Total(PendingAt(sh, s), k, j) == Waits(sh, k, j)
  {
    var popped := Pop(sh, s);
    PopGone(sh, s);
    if Has(sh, s) {
      AllSlotsComplete(sh);
      AllSlotsComplete(popped);
      var xs, ys := AllSlots(sh), AllSlots(popped);
      hide AllSlots, Total, Pop, Has, PendingAt;
      assert ([s] + ys)[0] == s && ([s] + ys)[1..] == ys;
      assert s !in ys;
      SlotsTotalPermuted(sh, xs, [s] + ys, k, j);
      SlotsTotalFrame(popped, sh, ys, k, j);
    } else {
      assert SlotsGone(sh, popped, []) by {
        forall t: Slot ensures t in [s] <==> t == s { }
      }
      hide Pop;
      WaitsFrame(sh, popped, k, j);
    }
  }

  lemma {:induction false} UnappliedTotals(sh: Shard, es: seq<Entry>, k: Key, j: nat)
    requires OnlyAdds(es, k)
    ensures Stored(Apply(sh, es).shard, k, j) + Total(Unapplied(sh, es), k, j) == Stored(sh, k, j) + Total(es, k, j)
    decreases |es|
  {
    if es != [] && Applicable(sh, es[0]) {
      var next := ApplyOne(sh, es[0]);
      assert Stored(next, k, j) == Stored(sh, k, j) + Share(es[0], k, j);
      UnappliedTotals(next, es[1..], k, j);
    }
  }

  lemma {:induction false} MergeTotals(merged: seq<Entry>, es: seq<Entry>, k: Key, j: nat)
    requires DistinctKeys(merged) && OnlyAdds(merged, k) && OnlyAdds(es, k) && MergeFrom(merged, es).Merged?
    ensures var result := MergeFrom(merged, es).entries;
      && DistinctKeys(result) && OnlyAdds(result, k)
      && Total(result, k, j) == Total(merged, k, j) + Total(es, k, j)
    decreases |es|
  {
    if es != [] {
      MergeIntoKeys(merged, es[0]);
      MergeIntoTotals(merged, es[0], k, j);
      hide MergeInto;
      MergeTotals(MergeInto(merged, es[0]).entries, es[1..], k, j);
    }
  }

  lemma MergeIntoTotals(merged: seq<Entry>, e: Entry, k: Key, j: nat)
    requires OnlyAdds(merged, k) && (e.key == k ==> e.op == Add) && MergeInto(merged, e).Merged?
    ensures OnlyAdds(MergeInto(merged, e).entries, k)
    ensures Total(MergeInto(merged, e).entries, k, j) == Total(merged, k, j) + Share(e, k, j)
  {
    var i := Find(merged, e.key);
    var next := MergeInto(merged, e).entries;
    if i == |merged| {
      TotalConcat(merged, [e], k, j);
      assert [e][1..] == [];
    } else {
      assert merged[i] in merged;
      assert next == merged[i := next[i]];
      TotalUpdate(merged, i, next[i], k, j);
    }
  }

  lemma AgreeSwap(x: Entry, y: Entry)
    ensures Agree(x, y) <==> Agree(y, x)
  {
  }

  /** Merged entries can join a slot exactly when the entries they came from can. */
  lemma JoinExact(slot: seq<Entry>, es: seq<Entry>)
    requires DistinctKeys(slot) && AllAgree(es)
    ensures Merge(es).Merged? && DistinctKeys(Merge(es).entries)
    ensures MergeFrom(slot, Merge(es).entries).Merged? <==> forall x, e | x in slot && e in es :: Agree(x, e)
  {
    MergeFailsExactlyOnDisagreement(es);
    var merged := Merge(es).entries;
    MergeFromShape(slot, merged);
    assert AllAgree(merged);
    forall x | x in slot
      ensures (forall e | e in es :: Agree(x, e)) <==> forall m | m in merged :: Agree(x, m)
    {
      MergeFromJoins([], es, x);
      forall e ensures Agree(e, x) <==> Agree(x, e) { AgreeSwap(e, x); }
      assert Joins(merged, x) <==> forall m | m in merged :: Agree(m, x);
    }
    hide MergeFrom, Agree;
    assert forall m :: Joins(slot, m) <==> forall x | x in slot :: Agree(x, m);
  }

  /** A push is refused exactly when it is not accepted; then values and slots are as before. */
  lemma PushIs(sh: Shard, w: Id, clock: int, entries: seq<Entry>, expired: bool)
    requires DistinctKeys(PendingAt(sh, Slot(w, clock)))
    ensures !Accepts(sh, w, clock, entries) ==>
      var (next, reply) := Push(sh, w, clock, entries, expired);
      && (Refused(reply) || reply == Failed(Conflict))
      && next.values == sh.values && SlotsGone(sh, next, [])
    ensures Accepts(sh, w, clock, entries) ==>
      && Merge(entries).Merged? && DistinctKeys(Merge(entries).entries)
      && Push(sh, w, clock, entries, expired) ==
         if AppliesAtOnce(sh, w) then PushNow(Known(sh, w), w, clock, Merge(entries).entries)
         else Pass(Begun(sh, w, clock, entries), w, clock, expired)
    ensures Accepts(sh, w, clock, entries) && !AppliesAtOnce(sh, w) ==> JoinedSlot(sh, w, clock, entries).Merged?
  {
    if AllAgree(entries) {
      JoinExact(PendingAt(sh, Slot(w, clock)), entries);
    } else {
      MergeFailsExactlyOnDisagreement(entries);
    }
    var known := Known(sh, w);
    KnownSlots(sh, w);
    hide MergeFrom, Pass, PushNow, AllAgree, DistinctKeys;
    if w != 0 && clock >= 0 && AllAgree(entries) && !AppliesAtOnce(sh, w) {
      if Accepts(sh, w, clock, entries) {
        PushUnfolds(sh, w, clock, entries, Merge(entries).entries, JoinedSlot(sh, w, clock, entries).entries, expired);
      } else {
        ReadySlots(known, w);
      }
    }
  }

  /** Why a push is refused before it is merged. */
  lemma RefusedFor(sh: Shard, w: Id, clock: int, entries: seq<Entry>, expired: bool)
    ensures var reply := Push(sh, w, clock, entries, expired).1;
      && (reply == Failed(EmptyWorkerId) <==> w == 0)
      && (reply == Failed(NegativeClock) <==> w != 0 && clock < 0)
      && (w != 0 && clock >= 0 && !AllAgree(entries) ==> reply == Failed(Conflict))
  {
    MergeFailsExactlyOnDisagreement(entries);
    hide MergeFrom, Ready, Apply, PopAll, Sorted, SyncOnly, AllAgree;
  }

  lemma KnownSlots(sh: Shard, w: Id)
    ensures var known := Known(sh, w);
      && known.values == sh.values && SlotsGone(sh, known, [])
      && (forall s: Slot :: Has(known, s) == Has(sh, s) && PendingAt(known, s) == PendingAt(sh, s))
  {
  }

  lemma ReadySlots(sh: Shard, w: Id)
    ensures var ready := sh.(pending := sh.pending[w := PendingOf(sh, w)]);
      && SlotsGone(sh, ready, []) && forall s: Slot :: PendingAt(ready, s) == PendingAt(sh, s)
  {
  }

  lemma HeldFrame(a: Shard, b: Shard, k: Key, j: nat)
    requires a.values == b.values && SlotsGone(a, b, [])
    ensures Held(a, k, j) == Held(b, k, j) && (Orderly(a, k) ==> Orderly(b, k))
  {
    WaitsFrame(a, b, k, j);
    OrderlyAfter(a, b, [], k);
  }

  lemma OrderlyAfter(a: Shard, b: Shard, slots: seq<Slot>, k: Key)
    requires SlotsGone(a, b, slots)
    ensures Orderly(a, k) ==> Orderly(b, k)
  {
    hide Has, PendingAt, DistinctKeys, OnlyAdds;
    if Orderly(a, k) {
      forall s: Slot | Has(b, s) ensures DistinctKeys(PendingAt(b, s)) && OnlyAdds(PendingAt(b, s), k) {
        assert Has(a, s) && PendingAt(b, s) == PendingAt(a, s);
      }
    }
  }

  lemma {:induction false} SameUnapplied(a: Shard, b: Shard, es: seq<Entry>)
    requires SameData(a, b)
    ensures Unapplied(a, es) == Unapplied(b, es)
    decreases |es|
  {
    if es != [] && Applicable(a, es[0]) {
      SameUnapplied(ApplyOne(a, es[0]), ApplyOne(b, es[0]), es[1..]);
    }
  }

  /** Entries that left the pending table are stored or left over. */
  lemma ApplyHeld(sh: Shard, popped: Shard, es: seq<Entry>, next: Shard, weight: real, k: Key, j: nat)
    requires Orderly(sh, k) && OnlyAdds(es, k)
    requires popped.values == sh.values && SameData(popped, sh) && Orderly(popped, k)
    requires Waits(popped, k, j) + weight == Waits(sh, k, j) && Total(es, k, j) == weight
    requires next.values == Apply(popped, es).shard.values && next.pending == Apply(popped, es).shard.pending
    ensures Held(next, k, j) + Total(Unapplied(sh, es), k, j) == Held(sh, k, j) && Orderly(next, k)
  {
    UnappliedTotals(popped, es, k, j);
    SameUnapplied(popped, sh, es);
    ApplyFrame(popped, es);
    SamePending(popped, next);
    WaitsFrame(popped, next, k, j);
    OrderlyAfter(popped, next, [], k);
    hide Apply, Unapplied, Total, Waits, Orderly, SlotsGone;
  }

  lemma PopHeld(sh: Shard, s: Slot, k: Key, j: nat)
    requires Orderly(sh, k)
    ensures var popped := Pop(sh, s);
      && SameButPending(popped, sh) && Orderly(popped, k) && OnlyAdds(PendingAt(sh, s), k)
      && Waits(popped, k, j) + Total(PendingAt(sh, s), k, j) == Waits(sh, k, j)
  {
    PopWaits(sh, s, k, j);
    PopGone(sh, s);
    OrderlyAfter(sh, Pop(sh, s), [s], k);
  }

  lemma {:induction false} PopAllHeld(sh: Shard, ws: seq<Id>, clock: int, k: Key, j: nat)
    requires Orderly(sh, k)
    ensures var (popped, grouped) := PopAll(sh, ws, clock);
      && SameButPending(popped, sh) && Orderly(popped, k) && OnlyAdds(grouped, k)
      && Waits(popped, k, j) + Total(grouped, k, j) == Waits(sh, k, j)
    decreases |ws|
  {
    if ws == [] {
      assert PopAll(sh, ws, clock) == (sh, []);
    } else {
      var s := Slot(ws[0], clock);
      var next := Pop(sh, s);
      var rest := PopAll(next, ws[1..], clock);
      assert PopAll(sh, ws, clock) == (rest.0, PendingAt(sh, s) + rest.1);
      hide PopAll, Pop, Waits, Orderly, PendingAt;
      PopHeld(sh, s, k, j);
      PopAllHeld(next, ws[1..], clock, k, j);
      TotalConcat(PendingAt(sh, s), rest.1, k, j);
      hide Total;
    }
  }

  lemma BarrierHeld(sh: Shard, clock: int, k: Key, j: nat)
    requires Orderly(sh, k)
    ensures Held(Barrier(sh, clock).0, k, j) + Total(BarrierDrops(sh, clock), k, j) == Held(sh, k, j)
    ensures Orderly(Barrier(sh, clock).0, k)
  {
    var ws := SyncOnly(sh, Sorted(sh.workers));
    var (popped, grouped) := PopAll(sh, ws, clock);
    PopAllHeld(sh, ws, clock, k, j);
    BarrierIs(sh, clock, popped, grouped);
    assert grouped == Grouped(sh, clock);
    if Merge(grouped).Merged? {
      MergeTotals([], grouped, k, j);
      var es := Merge(grouped).entries;
      assert BarrierDrops(sh, clock) == Unapplied(sh, es);
      hide PopAll, Grouped, MergeFrom, BarrierDrops, Total, Waits, Orderly, Held, Unapplied, SyncOnly, Sorted;
      var next := Barrier(sh, clock).0;
      var done := Apply(popped, es);
      assert next.values == done.shard.values && next.pending == done.shard.pending;
      ApplyHeld(sh, popped, es, next, Total(grouped, k, j), k, j);
    } else {
      assert BarrierDrops(sh, clock) == grouped;
    }
  }

  lemma PassHeld(sh: Shard, w: Id, clock: int, expired: bool, k: Key, j: nat)
    requires Orderly(sh, k)
    ensures Held(Pass(sh, w, clock, expired).0, k, j) + Total(PassDrops(sh, w, clock), k, j) == Held(sh, k, j)
    ensures Orderly(Pass(sh, w, clock, expired).0, k)
  {
    hide Held, Orderly, Barrier, BarrierDrops;
    BarrierHeld(sh, clock, k, j);
  }

  lemma FlushFirstHeld(sh: Shard, s: Slot, k: Key, j: nat)
    requires Orderly(sh, k)
    ensures var first, next := Apply(Pop(sh, s), PendingAt(sh, s)), FlushFirst(sh, s);
      && Held(first.shard, k, j) + Total(Unapplied(sh, PendingAt(sh, s)), k, j) == Held(sh, k, j)
      && Held(next, k, j) == Held(first.shard, k, j) && Orderly(first.shard, k) && Orderly(next, k)
  {
    var popped, es := Pop(sh, s), PendingAt(sh, s);
    var first, next := Apply(popped, es), FlushFirst(sh, s);
    assert SameButPending(popped, sh) && next.values == first.shard.values && next.pending == first.shard.pending;
    hide Apply, Pop, PendingAt, FlushFirst, Total, Waits, Held, Orderly, OnlyAdds, Unapplied;
    PopHeld(sh, s, k, j);
    ApplyHeld(sh, popped, es, first.shard, Total(es, k, j), k, j);
    SamePending(first.shard, next);
    HeldFrame(first.shard, next, k, j);
  }

  lemma {:induction false} FlushHeld(sh: Shard, slots: seq<Slot>, k: Key, j: nat)
    requires Orderly(sh, k)
    ensures Held(Flush(sh, slots).shard, k, j) + Total(FlushDrops(sh, slots), k, j) == Held(sh, k, j)
    ensures Orderly(Flush(sh, slots).shard, k)
    decreases |slots|
  {
    if slots != [] {
      var s := slots[0];
      FirstFlushed(sh, s);
      FlushUnfolds(sh, slots);
      UnappliedExact(sh, PendingAt(sh, s));
      FlushFirstHeld(sh, s, k, j);
      FlushHeld(FlushFirst(sh, s), slots[1..], k, j);
      hide Held, Orderly, Apply, Pop, PendingAt, FlushFirst, Unapplied, Flush, AllFit;
    }
  }

  lemma GoneBesides(a: Shard, b: Shard, popA: Shard, popB: Shard, s: Slot)
    requires SlotsGone(a, popA, [s]) && SlotsGone(b, popB, [s])
    requires forall t: Slot | t != s :: Has(b, t) == Has(a, t) && PendingAt(b, t) == PendingAt(a, t)
    ensures SlotsGone(popA, popB, [])
  {
    hide Has, PendingAt;
    forall t: Slot ensures t in [s] <==> t == s {
    }
  }

  lemma OpenHeld(sh: Shard, w: Id, clock: int, current: seq<Entry>, k: Key, j: nat)
    requires Orderly(sh, k) && DistinctKeys(current) && OnlyAdds(current, k)
    ensures var next := Opened(sh, w, clock, current);
      && Held(next, k, j) == Held(sh, k, j) - Total(PendingAt(sh, Slot(w, clock)), k, j) + Total(current, k, j)
      && Orderly(next, k)
  {
    var s, next := Slot(w, clock), Opened(sh, w, clock, current);
    OpenedSlots(sh, w, clock, current);
    hide Opened, Has, PendingAt, Pop, Waits, Total, DistinctKeys, OnlyAdds, SlotsGone;
    PopWaits(sh, s, k, j);
    PopWaits(next, s, k, j);
    PopGone(sh, s);
    PopGone(next, s);
    GoneBesides(sh, next, Pop(sh, s), Pop(next, s), s);
    WaitsFrame(Pop(sh, s), Pop(next, s), k, j);
  }

  /** One request: what is held and dropped afterwards is what was held and taken before. */
  lemma PushHeld(sh: Shard, w: Id, clock: int, entries: seq<Entry>, expired: bool, k: Key, j: nat)
    requires Orderly(sh, k) && OnlyAdds(entries, k)
    ensures var r := Pushing(w, clock, entries, expired);
      && Held(Serve(sh, r), k, j) + Total(Dropped(sh, r), k, j) == Held(sh, k, j) + Total(Taken(sh, r), k, j)
      && Orderly(Serve(sh, r), k)
  {
    SlotOrderly(sh, Slot(w, clock), k);
    PushIs(sh, w, clock, entries, expired);
    KnownSlots(sh, w);
    HeldFrame(sh, Known(sh, w), k, j);
    var next := Push(sh, w, clock, entries, expired).0;
    if !Accepts(sh, w, clock, entries) {
      HeldFrame(sh, next, k, j);
    } else {
      MergeTotals([], entries, k, j);
      if AppliesAtOnce(sh, w) {
        PushNowHeld(sh, Known(sh, w), w, clock, Merge(entries).entries, k, j);
      } else {
        WaitingPushHeld(sh, w, clock, entries, expired, k, j);
      }
    }
  }

  lemma SlotOrderly(sh: Shard, s: Slot, k: Key)
    requires Orderly(sh, k)
    ensures DistinctKeys(PendingAt(sh, s)) && OnlyAdds(PendingAt(sh, s), k)
  {
  }

  lemma PushNowHeld(sh: Shard, known: Shard, w: Id, clock: int, normalized: seq<Entry>, k: Key, j: nat)
    requires Orderly(sh, k) && OnlyAdds(normalized, k)
    requires known == Known(sh, w)
    ensures var next := PushNow(known, w, clock, normalized).0;
      && Held(next, k, j) + Total(Unapplied(sh, normalized), k, j) == Held(sh, k, j) + Total(normalized, k, j)
      && Orderly(next, k)
  {
    KnownSlots(sh, w);
    HeldFrame(sh, known, k, j);
    UnappliedTotals(known, normalized, k, j);
    SameUnapplied(known, sh, normalized);
    ApplyFrame(known, normalized);
    var next := PushNow(known, w, clock, normalized).0;
    SamePending(known, next);
    WaitsFrame(known, next, k, j);
    OrderlyAfter(known, next, [], k);
  }

  lemma WaitingPushHeld(sh: Shard, w: Id, clock: int, entries: seq<Entry>, expired: bool, k: Key, j: nat)
    requires Orderly(sh, k) && OnlyAdds(entries, k)
    requires Merge(entries).Merged? && JoinedSlot(sh, w, clock, entries).Merged?
    ensures var begun := Begun(sh, w, clock, entries);
      var next := Pass(begun, w, clock, expired).0;
      && Held(next, k, j) + Total(PassDrops(begun, w, clock), k, j) == Held(sh, k, j) + Total(entries, k, j)
      && Orderly(next, k)
  {
    var s, known := Slot(w, clock), Known(sh, w);
    SlotOrderly(sh, s, k);
    MergeTotals([], entries, k, j);
    MergeTotals(PendingAt(sh, s), Merge(entries).entries, k, j);
    KnownSlots(sh, w);
    HeldFrame(sh, known, k, j);
    assert PendingAt(known, s) == PendingAt(sh, s);
    OpenHeld(known, w, clock, JoinedSlot(sh, w, clock, entries).entries, k, j);
    PassHeld(Begun(sh, w, clock, entries), w, clock, expired, k, j);
  }

  lemma SwitchIs(sh: Shard, mode: Mode, w: Id)
    ensures var r := Switching(mode, w);
      if sh.mode == Sync && mode == Async
      then Serve(sh, r) == Flush(Declared(sh, w), AllSlots(sh)).shard && Dropped(sh, r) == FlushDrops(sh, AllSlots(sh))
      else Dropped(sh, r) == [] && Serve(sh, r).values == sh.values && Serve(sh, r).pending == sh.pending
  {
    hide Flush, AllSlots, FlushDrops, Push, Pass, Register, PassDrops, Accepts, AppliesAtOnce, Begun, Unapplied, Merge;
    if sh.mode == Sync && mode == Async {
      SameSlots(sh, Declared(sh, w));
    }
  }

  lemma SwitchHeld(sh: Shard, mode: Mode, w: Id, k: Key, j: nat)
    requires Orderly(sh, k)
    ensures var r := Switching(mode, w);
      Held(Serve(sh, r), k, j) + Total(Dropped(sh, r), k, j) == Held(sh, k, j) && Orderly(Serve(sh, r), k)
  {
    SwitchIs(sh, mode, w);
    if sh.mode == Sync && mode == Async {
      var declared := Declared(sh, w);
      SamePending(sh, declared);
      SameFlushDrops(declared, sh, AllSlots(sh));
      assert declared.values == sh.values;
      hide *;
      HeldFrame(sh, declared, k, j);
      FlushHeld(declared, AllSlots(sh), k, j);
    } else {
      var next := Serve(sh, Switching(mode, w));
      hide *;
      SamePending(sh, next);
      HeldFrame(sh, next, k, j);
      NothingTotals(k, j);
    }
  }

  lemma NothingTotals(k: Key, j: nat)
    ensures Total([], k, j) == 0.0
  {
  }

  lemma {:induction false} SameFlushDrops(a: Shard, b: Shard, slots: seq<Slot>)
    requires a.pending == b.pending && SameData(a, b)
    ensures FlushDrops(a, slots) == FlushDrops(b, slots)
    decreases |slots|
  {
    if slots != [] {
      var es := PendingAt(a, slots[0]);
      assert PendingAt(b, slots[0]) == es;
      ApplySameData(a, b, es);
      SameUnapplied(a, b, es);
      FlushFirstData(a, b, slots[0]);
      hide Apply, Unapplied, FlushFirst, PendingAt;
      if Apply(a, es).ok {
        SameFlushDrops(FlushFirst(a, slots[0]), FlushFirst(b, slots[0]), slots[1..]);
      }
    }
  }

  lemma FlushFirstData(a: Shard, b: Shard, s: Slot)
    requires a.pending == b.pending && SameData(a, b)
    ensures FlushFirst(a, s).pending == FlushFirst(b, s).pending && SameData(FlushFirst(a, s), FlushFirst(b, s))
  {
    var es := PendingAt(a, s);
    ApplySameData(Pop(a, s), Pop(b, s), es);
    ApplyFrame(Pop(a, s), es);
    ApplyFrame(Pop(b, s), es);
  }

  lemma ServeHeld(sh: Shard, r: Request, k: Key, j: nat)
    requires Orderly(sh, k) && (r.Pushing? ==> OnlyAdds(r.entries, k))
    ensures Held(Serve(sh, r), k, j) + Total(Dropped(sh, r), k, j) == Held(sh, k, j) + Total(Taken(sh, r), k, j)
    ensures Orderly(Serve(sh, r), k)
  {
    match r
    case Registering(w) =>
      var next := Register(sh, w).0;
      assert SlotsGone(sh, next, []) by {
        forall s: Slot ensures Has(next, s) == Has(sh, s) && PendingAt(next, s) == PendingAt(sh, s) { }
      }
      HeldFrame(sh, next, k, j);
    case Pushing(w, clock, entries, expired) => PushHeld(sh, w, clock, entries, expired, k, j);
    case Waking(w, clock, expired) => PassHeld(sh, w, clock, expired, k, j);
    case Switching(mode, w) => SwitchHeld(sh, mode, w, k, j);
  }

  // ----- main results -----

  /** The entries taken by some requests in a row. */
  ghost function AllTaken(sh: Shard, rs: seq<Request>): seq<Entry>
    decreases |rs|
  {
    if rs == [] then [] else Taken(sh, rs[0]) + AllTaken(Serve(sh, rs[0]), rs[1..])
  }

  ghost function AllDropped(sh: Shard, rs: seq<Request>): seq<Entry>
    decreases |rs|
  {
    if rs == [] then [] else Dropped(sh, rs[0]) + AllDropped(Serve(sh, rs[0]), rs[1..])
  }

  /**
   Whatever is asked of a shard, in any order and with any entries for the other keys: as long as a
   key is only ever added to, each of its coordinates holds, in the values, the pending table and
   the dropped entries together, the initial value plus all accepted contributions.
   */
  lemma EverythingIsAccounted(mode: Mode, initial: map<Key, seq<real>>, rs: seq<Request>, k: Key, j: nat)
    requires forall r | r in rs && r.Pushing? :: OnlyAdds(r.entries, k)
    ensures var start := New(mode, initial);
      var end := After(start, rs);
      Stored(end, k, j) + SlotsTotal(end, AllSlots(end), k, j) + Total(AllDropped(start, rs), k, j)
      == Stored(start, k, j) + Total(AllTaken(start, rs), k, j)
  {
    var start := New(mode, initial);
    RunHeld(start, rs, k, j);
    NothingWaits(mode, initial, k, j);
  }

  lemma NothingWaits(mode: Mode, initial: map<Key, seq<real>>, k: Key, j: nat)
    ensures Orderly(New(mode, initial), k) && Waits(New(mode, initial), k, j) == 0.0
  {
    var start := New(mode, initial);
    AllSlotsComplete(start);
    var slots := AllSlots(start);
    EmptyOrNot(slots);
    assert forall s: Slot :: !Has(start, s);
  }

  lemma {:induction false} RunHeld(sh: Shard, rs: seq<Request>, k: Key, j: nat)
    requires Orderly(sh, k) && forall r | r in rs && r.Pushing? :: OnlyAdds(r.entries, k)
    ensures Held(After(sh, rs), k, j) + Total(AllDropped(sh, rs), k, j) == Held(sh, k, j) + Total(AllTaken(sh, rs), k, j)
    decreases |rs|
  {
    if rs != [] {
      var next := Serve(sh, rs[0]);
      ServeHeld(sh, rs[0], k, j);
      RunHeld(next, rs[1..], k, j);
      TotalConcat(Dropped(sh, rs[0]), AllDropped(next, rs[1..]), k, j);
      TotalConcat(Taken(sh, rs[0]), AllTaken(next, rs[1..]), k, j);
      hide Held, Orderly, Serve, Taken, Dropped, Total, OnlyAdds;
    }
  }

  /** A run drops nothing exactly when every request is clean in the state it finds. */
  lemma {:induction false} NothingIsDroppedExactly(sh: Shard, rs: seq<Request>)
    ensures AllDropped(sh, rs) == [] <==> forall n | 0 <= n < |rs| :: Clean(After(sh, rs[..n]), rs[n])
    decreases |rs|
  {
    if rs != [] {
      var next := Serve(sh, rs[0]);
      DropsNothingIfClean(sh, rs[0]);
      NothingIsDroppedExactly(next, rs[1..]);
      assert After(sh, rs[..0]) == sh;
      forall n | 0 < n < |rs| ensures After(sh, rs[..n]) == After(next, rs[1..][..n - 1]) && rs[n] == rs[1..][n - 1] {
        assert rs[..n][1..] == rs[1..][..n - 1];
      }
      hide Clean, Dropped, Serve, After;
      assert forall m | 0 <= m < |rs| - 1 :: After(next, rs[1..][..m]) == After(sh, rs[..m + 1]);
    }
  }

  ghost predicate RaisesOnApplying(r: Reply) {
    r == Failed(Conflict) || r == Failed(LengthMismatch)
  }

  /** A request that drops accepted entries raises, and only then does an accepted one raise so. */
  lemma DropsAreRaised(sh: Shard, r: Request)
    requires r.Pushing? ==> DistinctKeys(PendingAt(sh, Slot(r.worker, r.clock)))
    ensures match r
      case Registering(_) => Dropped(sh, r) == []
      case Pushing(w, clock, entries, expired) =>
        Accepts(sh, w, clock, entries) ==>
          (Dropped(sh, r) != [] <==> RaisesOnApplying(Push(sh, w, clock, entries, expired).1))
      case Waking(w, clock, expired) =>
        Dropped(sh, r) != [] <==> RaisesOnApplying(Pass(sh, w, clock, expired).1)
      case Switching(mode, w) => Dropped(sh, r) != [] <==> SetMode(sh, mode, w).1.ModeFailed?
  {
    match r
    case Registering(_) =>
    case Pushing(w, clock, entries, expired) =>
      if Accepts(sh, w, clock, entries) {
        PushIs(sh, w, clock, entries, expired);
        if AppliesAtOnce(sh, w) {
          var normalized := Merge(entries).entries;
          hide MergeFrom, Accepts, AppliesAtOnce;
          KnownSlots(sh, w);
          SameApplied(Known(sh, w), sh, normalized);
        } else {
          hide *;
          PassRaises(Begun(sh, w, clock, entries), w, clock, expired);
          WaitingDrops(sh, w, clock, entries, expired);
        }
      }
    case Waking(w, clock, expired) => PassRaises(sh, w, clock, expired);
    case Switching(mode, w) =>
      ModeFailsExactly(sh, mode, w);
      DropsNothingIfClean(sh, r);
  }

  lemma SameApplied(a: Shard, b: Shard, es: seq<Entry>)
    requires a.values == b.values
    ensures Apply(a, es).ok <==> Unapplied(b, es) == []
  {
    var c := b.(versions := a.versions, globalClock := a.globalClock);
    UnappliedExact(a, es);
    SameFit(a, c, es);
    UnappliedExact(b, es);
    SameLengths(c, b, es);
  }

  lemma SameLengths(a: Shard, b: Shard, es: seq<Entry>)
    requires a.values == b.values
    ensures AllFit(a, es) <==> AllFit(b, es)
  {
    forall i | 0 <= i < |es| ensures FitsInTurn(a, es, i) == FitsInTurn(b, es, i) {
      SameLength(a, b, es[..i], es[i].key);
    }
  }

  lemma {:induction false} SameLength(a: Shard, b: Shard, es: seq<Entry>, key: Key)
    requires a.values == b.values
    ensures LengthAfter(a, es, key) == LengthAfter(b, es, key)
  {
    if es != [] {
      SameLength(a, b, es[..|es| - 1], key);
    }
  }

  lemma WaitingDrops(sh: Shard, w: Id, clock: int, entries: seq<Entry>, expired: bool)
    requires Accepts(sh, w, clock, entries) && !AppliesAtOnce(sh, w)
    ensures Dropped(sh, Pushing(w, clock, entries, expired)) == PassDrops(Begun(sh, w, clock, entries), w, clock)
  {
    hide PassDrops, Begun, Accepts, AppliesAtOnce;
  }

  lemma PassRaises(sh: Shard, w: Id, clock: int, expired: bool)
    ensures PassDrops(sh, w, clock) != [] <==> RaisesOnApplying(Pass(sh, w, clock, expired).1)
  {
    BarrierExact(sh, clock);
    BarrierClean(sh, clock);
    hide Barrier, BarrierDrops, Mergeable, Appliable;
  }
}
