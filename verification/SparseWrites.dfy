/**
 What the stored values are, also of keys that are set: after entries have been applied, a value is
 the one of the last entry that sets its key, or else the one before, plus all that is added after
 it. The barrier's merged round and the flush write the same, and a pull reads what was written.
 */
module SparseWrites {
  import opened SparseProtocol
  import opened SparseShard
  import opened SparseLedger
  import opened SparseFailures
  import opened SparseLosses
  import opened SparseBook

  /** Entry n is the last one that sets the key; -1 when none does. */
  ghost predicate LastSet(es: seq<Entry>, k: Key, n: int) {
    && -1 <= n < |es| && (n >= 0 ==> es[n].key == k && es[n].op == Set)
    && forall i | n < i < |es| && es[i].key == k :: es[i].op == Add
  }

  lemma {:induction false} LastSetExists(es: seq<Entry>, k: Key) returns (n: int)
    ensures LastSet(es, k, n)
  {
    n := |es| - 1;
    while n >= 0 && !(es[n].key == k && es[n].op == Set)
      invariant -1 <= n < |es|
      invariant forall i | n < i < |es| && es[i].key == k :: es[i].op == Add
    {
      n := n - 1;
    }
  }

  /** Where a value starts from before the additions after the last set are made. */
  function Base(a: Shard, es: seq<Entry>, k: Key, n: int, j: nat): real
    requires -1 <= n < |es|
  {
    if n < 0 then Stored(a, k, j) else if j < |es[n].values| then es[n].values[j] else 0.0
  }

  /** All entries of the key after its last set, that set, and the value before if none, are one length. */
  ghost predicate OneLength(a: Shard, es: seq<Entry>, k: Key, n: int, len: nat)
    requires -1 <= n < |es|
  {
    && (n >= 0 ==> |es[n].values| == len)
    && (n < 0 && k in a.values ==> |a.values[k]| == len)
    && forall i | n < i < |es| && es[i].key == k :: |es[i].values| == len
  }

  ghost predicate WritesKey(a: Shard, b: Shard, es: seq<Entry>, k: Key, n: int)
    requires -1 <= n < |es|
  {
    && (k in b.values <==> k in a.values || HasKey(es, k))
    && (k in b.values ==>
          && OneLength(a, es, k, n, |b.values[k]|)
          && forall j: nat | j < |b.values[k]| :: b.values[k][j] == Base(a, es, k, n, j) + Total(es[n + 1..], k, j))
  }

  /** The values of b are those of a after the entries, one after the other. */
  ghost predicate Writes(a: Shard, b: Shard, es: seq<Entry>) {
    forall k: Key, n: int | LastSet(es, k, n) :: WritesKey(a, b, es, k, n)
  }

  // ----- applying one list -----

  lemma WritesNothing(a: Shard, b: Shard)
    requires a.values == b.values
    ensures Writes(a, b, [])
  {
  }

  lemma WritesOne(sh: Shard, e: Entry)
    requires Applicable(sh, e)
    ensures Writes(sh, ApplyOne(sh, e), [e])
  {
    var next := ApplyOne(sh, e);
    forall k: Key, n: int | LastSet([e], k, n) ensures WritesKey(sh, next, [e], k, n) {
      OneEntry(e, k, n);
      if e.key != k {
        OtherKeyWritten(sh, e, k);
      } else if e.op == Set {
        SetWritten(sh, e);
      } else {
        AddWritten(sh, e);
      }
    }
  }

  lemma OneEntry(e: Entry, k: Key, n: int)
    requires LastSet([e], k, n)
    ensures n == if e.key == k && e.op == Set then 0 else -1
    ensures HasKey([e], k) <==> e.key == k
  {
    assert [e][0] == e;
  }

  lemma OneTotal(e: Entry, k: Key)
    ensures forall j: nat :: Total([e][0..], k, j) == Share(e, k, j) && Total([e][1..], k, j) == 0.0
  {
    assert [e][0..] == [e] && [e][1..] == [];
    assert forall j: nat :: Total([], k, j) == 0.0;
  }

  lemma OtherKeyWritten(sh: Shard, e: Entry, k: Key)
    requires Applicable(sh, e) && e.key != k
    ensures WritesKey(sh, ApplyOne(sh, e), [e], k, -1)
  {
    OneTotal(e, k);
    hide Total;
    assert !HasKey([e], k);
  }

  lemma SetWritten(sh: Shard, e: Entry)
    requires e.op == Set
    ensures WritesKey(sh, ApplyOne(sh, e), [e], e.key, 0)
  {
    OneTotal(e, e.key);
    hide Total;
    assert [e][0] == e && HasKey([e], e.key);
  }

  lemma AddWritten(sh: Shard, e: Entry)
    requires Applicable(sh, e) && e.op == Add
    ensures WritesKey(sh, ApplyOne(sh, e), [e], e.key, -1)
  {
    OneTotal(e, e.key);
    hide Total;
    assert [e][0] == e && HasKey([e], e.key);
  }

  /** The last set of two lists one after the other is that of the second, or else of the first. */
  lemma LastSetOfBoth(es: seq<Entry>, fs: seq<Entry>, k: Key, n: int)
    requires LastSet(es + fs, k, n)
    ensures if n >= |es| then LastSet(fs, k, n - |es|) && (es + fs)[n] == fs[n - |es|]
            else LastSet(es, k, n) && LastSet(fs, k, -1) && (n >= 0 ==> (es + fs)[n] == es[n])
    ensures (es + fs)[n + 1..] == if n >= |es| then fs[n - |es| + 1..] else es[n + 1..] + fs
    ensures HasKey(es + fs, k) <==> HasKey(es, k) || HasKey(fs, k)
  {
    KeysOfBoth(es, fs, k);
    hide HasKey;
    if n >= |es| {
      LastSetOfSecond(es, fs, k, n);
    } else {
      LastSetOfFirst(es, fs, k, n);
    }
  }

  lemma KeysOfBoth(es: seq<Entry>, fs: seq<Entry>, k: Key)
    ensures HasKey(es + fs, k) <==> HasKey(es, k) || HasKey(fs, k)
  {
    var all := es + fs;
    if HasKey(fs, k) {
      var i :| 0 <= i < |fs| && fs[i].key == k;
      assert all[|es| + i].key == k;
    }
    if HasKey(es, k) {
      var i :| 0 <= i < |es| && es[i].key == k;
      assert all[i].key == k;
    }
    if HasKey(all, k) {
      var i :| 0 <= i < |all| && all[i].key == k;
      assert if i < |es| then es[i].key == k else fs[i - |es|].key == k;
    }
  }

  lemma LastSetOfSecond(es: seq<Entry>, fs: seq<Entry>, k: Key, n: int)
    requires LastSet(es + fs, k, n) && n >= |es|
    ensures LastSet(fs, k, n - |es|) && (es + fs)[n] == fs[n - |es|]
    ensures (es + fs)[n + 1..] == fs[n - |es| + 1..]
  {
    var all := es + fs;
    SliceOfBoth(es, fs, n + 1);
    forall i | n - |es| < i < |fs| && fs[i].key == k ensures fs[i].op == Add {
      assert all[|es| + i] == fs[i];
    }
  }

  lemma SliceOfBoth(es: seq<Entry>, fs: seq<Entry>, m: nat)
    requires m <= |es + fs|
    ensures (es + fs)[m..] == if m <= |es| then es[m..] + fs else fs[m - |es|..]
  {
  }

  lemma LastSetOfFirst(es: seq<Entry>, fs: seq<Entry>, k: Key, n: int)
    requires LastSet(es + fs, k, n) && n < |es|
    ensures LastSet(es, k, n) && LastSet(fs, k, -1) && (n >= 0 ==> (es + fs)[n] == es[n])
    ensures (es + fs)[n + 1..] == es[n + 1..] + fs
  {
    assert -1 <= n;
    hide *;
    NoSetLater(es, fs, k, n);
    SetEarlier(es, fs, k, n);
    IsLastSet(es, k, n);
    IsLastSet(fs, k, -1);
    SliceOfBoth(es, fs, n + 1);
  }

  lemma IsLastSet(es: seq<Entry>, k: Key, n: int)
    requires -1 <= n < |es| && (n >= 0 ==> es[n].key == k && es[n].op == Set)
    requires forall i | n < i < |es| && es[i].key == k :: es[i].op == Add
    ensures LastSet(es, k, n)
  {
  }

  lemma SetEarlier(es: seq<Entry>, fs: seq<Entry>, k: Key, n: int)
    requires LastSet(es + fs, k, n) && n < |es|
    ensures n >= 0 ==> (es + fs)[n] == es[n] && es[n].key == k && es[n].op == Set
  {
  }

  lemma NoSetLater(es: seq<Entry>, fs: seq<Entry>, k: Key, n: int)
    requires LastSet(es + fs, k, n) && n < |es|
    ensures forall i | n < i < |es| && es[i].key == k :: es[i].op == Add
    ensures forall i | 0 <= i < |fs| && fs[i].key == k :: fs[i].op == Add
  {
    var all := es + fs;
    forall i | n < i < |es| && es[i].key == k ensures es[i].op == Add {
      assert all[i] == es[i];
    }
    forall i | 0 <= i < |fs| && fs[i].key == k ensures fs[i].op == Add {
      assert all[|es| + i] == fs[i];
    }
  }

  lemma NoKeyLater(es: seq<Entry>, k: Key, n: int, j: nat)
    requires -1 <= n < |es| && !HasKey(es, k)
    ensures Total(es[n + 1..], k, j) == 0.0
  {
    var rest := es[n + 1..];
    assert forall i | 0 <= i < |rest| :: rest[i] == es[n + 1 + i];
    NoKeyNoTotal(rest, k, j);
  }

  lemma WritesThen(a: Shard, b: Shard, c: Shard, es: seq<Entry>, fs: seq<Entry>)
    requires Writes(a, b, es) && Writes(b, c, fs)
    ensures Writes(a, c, es + fs)
  {
    hide Total, HasKey;
    forall k: Key, n: int | LastSet(es + fs, k, n) ensures WritesKey(a, c, es + fs, k, n) {
      LastSetOfBoth(es, fs, k, n);
      if n >= |es| {
        LaterSetWrites(a, b, c, es, fs, k, n);
      } else {
        assert WritesKey(a, b, es, k, n) && WritesKey(b, c, fs, k, -1);
        EarlierSetWrites(a, b, c, es, fs, k, n);
      }
    }
  }

  lemma LaterSetWrites(a: Shard, b: Shard, c: Shard, es: seq<Entry>, fs: seq<Entry>, k: Key, n: int)
    requires Writes(a, b, es) && Writes(b, c, fs) && LastSet(es + fs, k, n) && n >= |es|
    ensures WritesKey(a, c, es + fs, k, n)
  {
    LastSetOfBoth(es, fs, k, n);
    var m := n - |es|;
    assert WritesKey(b, c, fs, k, m);
    assert HasKey(fs, k);
    hide Total, HasKey, Writes, LastSet;
    assert forall i | m < i < |fs| :: fs[i] == (es + fs)[|es| + i];
    assert forall i | n < i < |es + fs| :: (es + fs)[i] == fs[i - |es|];
  }

  lemma EarlierSetWrites(a: Shard, b: Shard, c: Shard, es: seq<Entry>, fs: seq<Entry>, k: Key, n: int)
    requires LastSet(es + fs, k, n) && n < |es| && LastSet(es, k, n)
    requires WritesKey(a, b, es, k, n) && WritesKey(b, c, fs, k, -1)
    ensures WritesKey(a, c, es + fs, k, n)
  {
    hide *;
    EarlierKeys(a, b, c, es, fs, k, n);
    if k in c.values {
      EarlierLength(a, b, c, es, fs, k, n, |c.values[k]|);
      forall j: nat | j < |c.values[k]|
        ensures c.values[k][j] == Base(a, es + fs, k, n, j) + Total((es + fs)[n + 1..], k, j)
      {
        EarlierValue(a, b, c, es, fs, k, n, j);
      }
    }
    IsWritten(a, c, es + fs, k, n);
  }

  lemma IsWritten(a: Shard, b: Shard, es: seq<Entry>, k: Key, n: int)
    requires -1 <= n < |es| && (k in b.values <==> k in a.values || HasKey(es, k))
    requires k in b.values ==> OneLength(a, es, k, n, |b.values[k]|)
    requires k in b.values ==>
      forall j: nat | j < |b.values[k]| :: b.values[k][j] == Base(a, es, k, n, j) + Total(es[n + 1..], k, j)
    ensures WritesKey(a, b, es, k, n)
  {
    hide HasKey, OneLength, Base, Total;
  }

  lemma EarlierKeys(a: Shard, b: Shard, c: Shard, es: seq<Entry>, fs: seq<Entry>, k: Key, n: int)
    requires LastSet(es + fs, k, n) && n < |es| && LastSet(es, k, n)
    requires WritesKey(a, b, es, k, n) && WritesKey(b, c, fs, k, -1)
    ensures -1 <= n < |es| && n < |es + fs|
    ensures k in c.values <==> k in a.values || HasKey(es + fs, k)
    ensures k in c.values ==> OneLength(b, fs, k, -1, |c.values[k]|)
    ensures k !in b.values ==> !HasKey(es, k) && k !in a.values && n < 0
  {
    LastSetOfBoth(es, fs, k, n);
    if k !in b.values {
      FirstWrite(a, b, es, k, n);
    }
    hide HasKey, OneLength, Base, Total;
  }

  lemma FirstWrite(a: Shard, b: Shard, es: seq<Entry>, k: Key, n: int)
    requires LastSet(es, k, n) && WritesKey(a, b, es, k, n) && k !in b.values
    ensures !HasKey(es, k) && k !in a.values && n < 0
  {
  }

  lemma EarlierLength(a: Shard, b: Shard, c: Shard, es: seq<Entry>, fs: seq<Entry>, k: Key, n: int, len: nat)
    requires -1 <= n < |es| && WritesKey(a, b, es, k, n) && OneLength(b, fs, k, -1, len)
    requires k !in b.values ==> !HasKey(es, k) && k !in a.values && n < 0
    ensures OneLength(a, es + fs, k, n, len)
  {
    var all := es + fs;
    hide Total, Base;
    forall i | n < i < |all| && all[i].key == k ensures |all[i].values| == len {
      if i < |es| {
        assert all[i] == es[i] && HasKey(es, k);
      } else {
        assert all[i] == fs[i - |es|];
      }
    }
  }

  lemma EarlierValue(a: Shard, b: Shard, c: Shard, es: seq<Entry>, fs: seq<Entry>, k: Key, n: int, j: nat)
    requires -1 <= n < |es| && WritesKey(a, b, es, k, n)
    requires WritesKey(b, c, fs, k, -1) && k in c.values && j < |c.values[k]|
    requires k !in b.values ==> !HasKey(es, k) && k !in a.values && n < 0
    ensures c.values[k][j] == Base(a, es + fs, k, n, j) + Total((es + fs)[n + 1..], k, j)
  {
    hide *;
    TailTotal(es, fs, k, n, j);
    SameBase(a, es, fs, k, n, j);
    NewValue(b, c, fs, k, j);
    OldValue(a, b, es, k, n, j);
  }

  lemma TailTotal(es: seq<Entry>, fs: seq<Entry>, k: Key, n: int, j: nat)
    requires -1 <= n < |es|
    ensures Total((es + fs)[n + 1..], k, j) == Total(es[n + 1..], k, j) + Total(fs, k, j)
  {
    var tail := es[n + 1..];
    TotalConcat(tail, fs, k, j);
    hide Total;
    assert (es + fs)[n + 1..] == tail + fs;
  }

  lemma SameBase(a: Shard, es: seq<Entry>, fs: seq<Entry>, k: Key, n: int, j: nat)
    requires -1 <= n < |es|
    ensures n < |es + fs| && Base(a, es + fs, k, n, j) == Base(a, es, k, n, j)
  {
    assert n >= 0 ==> (es + fs)[n] == es[n];
  }

  lemma NewValue(b: Shard, c: Shard, fs: seq<Entry>, k: Key, j: nat)
    requires WritesKey(b, c, fs, k, -1) && k in c.values && j < |c.values[k]|
    ensures c.values[k][j] == Stored(b, k, j) + Total(fs, k, j)
    ensures k in b.values ==> j < |b.values[k]|
  {
    hide HasKey, Total;
    assert fs[0..] == fs;
  }

  lemma OldValue(a: Shard, b: Shard, es: seq<Entry>, k: Key, n: int, j: nat)
    requires -1 <= n < |es| && WritesKey(a, b, es, k, n)
    requires k in b.values ==> j < |b.values[k]|
    requires k !in b.values ==> !HasKey(es, k) && k !in a.values && n < 0
    ensures Stored(b, k, j) == Base(a, es, k, n, j) + Total(es[n + 1..], k, j)
  {
    if k !in b.values {
      NoKeyLater(es, k, n, j);
    }
    hide HasKey, Total, OneLength;
  }

  function Mentions(es: seq<Entry>, k: Key): nat {
    if es == [] then 0 else (if es[0].key == k then 1 else 0) + Mentions(es[1..], k)
  }

  /** Every entry raises the version of its key by one, and the clock of the shard. */
  ghost predicate Counts(a: Shard, b: Shard, es: seq<Entry>) {
    && b.globalClock == a.globalClock + |es|
    && forall k: Key :: PullOne(b, k).1 == PullOne(a, k).1 + Mentions(es, k)
  }

  /** Applying writes the entries it counts, and counts their versions. */
  lemma {:induction false} ApplyWrites(sh: Shard, es: seq<Entry>)
    ensures var done := Apply(sh, es);
      && done.count <= |es| && (done.ok <==> done.count == |es|)
      && Writes(sh, done.shard, es[..done.count]) && Counts(sh, done.shard, es[..done.count])
    decreases |es|
  {
    var done := Apply(sh, es);
    if es == [] || !Applicable(sh, es[0]) {
      assert es[..0] == [];
      WritesNothing(sh, sh);
    } else {
      var next, later := ApplyOne(sh, es[0]), Apply(ApplyOne(sh, es[0]), es[1..]);
      ApplyWrites(next, es[1..]);
      WritesOne(sh, es[0]);
      WritesThen(sh, next, done.shard, [es[0]], es[1..][..later.count]);
      assert es[..done.count] == [es[0]] + es[1..][..later.count];
      CountsThen(sh, next, done.shard, es[0], es[1..][..later.count]);
    }
  }

  lemma CountsThen(a: Shard, b: Shard, c: Shard, e: Entry, fs: seq<Entry>)
    requires Applicable(a, e) && b == ApplyOne(a, e) && Counts(b, c, fs)
    ensures Counts(a, c, [e] + fs)
  {
    assert ([e] + fs)[1..] == fs;
  }

  // ----- merging first writes the same -----

  lemma AgreedSets(es: seq<Entry>, k: Key, n: int)
    requires AllAgree(es) && LastSet(es, k, n)
    ensures n >= 0 ==> forall i | n < i < |es| :: es[i].key != k
    ensures n < 0 ==> OnlyAdds(es, k)
  {
    if n >= 0 {
      forall i | n < i < |es| ensures es[i].key != k {
        assert Agree(es[n], es[i]);
      }
    }
  }

  lemma NoneAfter(es: seq<Entry>, k: Key, n: nat, j: nat)
    requires n < |es| && forall i | n < i < |es| :: es[i].key != k
    ensures Total(es[n + 1..], k, j) == 0.0
  {
    var rest := es[n + 1..];
    assert forall i | 0 <= i < |rest| :: rest[i] == es[n + 1 + i];
    NoKeyNoTotal(rest, k, j);
  }

  lemma MergedSetWrites(a: Shard, b: Shard, es: seq<Entry>, k: Key, n: nat)
    requires AllAgree(es) && Merge(es).Merged? && LastSet(es, k, n) && Writes(a, b, Merge(es).entries)
    ensures WritesKey(a, b, es, k, n)
  {
    var merged := Merge(es).entries;
    AgreedSets(es, k, n);
    MergeFailsExactlyOnDisagreement(es);
    LastSetWins([], es, n);
    hide Total, MergeFrom, AllAgree, Writes;
    var i :| 0 <= i < |merged| && merged[i] == es[n];
    assert forall m | i < m < |merged| :: merged[m].key != k;
    assert LastSet(merged, k, i);
    assert WritesKey(a, b, merged, k, i) by { assert Writes(a, b, merged); WritesAt(a, b, merged, k, i); }
    var left, right := merged[i + 1..], es[n + 1..];
    forall j: nat ensures Total(left, k, j) == Total(right, k, j) {
      NoneAfter(merged, k, i, j);
      NoneAfter(es, k, n, j);
    }
    assert HasKey(es, k);
  }

  lemma WritesAt(a: Shard, b: Shard, es: seq<Entry>, k: Key, n: int)
    requires Writes(a, b, es) && LastSet(es, k, n)
    ensures WritesKey(a, b, es, k, n)
  {
    hide WritesKey, LastSet;
  }

  lemma MergedAddsWrite(a: Shard, b: Shard, es: seq<Entry>, k: Key)
    requires AllAgree(es) && Merge(es).Merged? && LastSet(es, k, -1) && Writes(a, b, Merge(es).entries)
    ensures WritesKey(a, b, es, k, -1)
  {
    var merged := Merge(es).entries;
    AgreedSets(es, k, -1);
    MergeFailsExactlyOnDisagreement(es);
    MergeTotals([], es, k, 0);
    assert LastSet(merged, k, -1) by { assert forall i | 0 <= i < |merged| :: merged[i] in merged; }
    WritesAt(a, b, merged, k, -1);
    assert merged[0..] == merged && es[0..] == es;
    hide MergeFrom, AllAgree, Writes, LastSet;
    forall i | 0 <= i < |es| && es[i].key == k ensures |es[i].values| == |b.values[k]| {
      AddedLength(a, b, es, k, i);
    }
    forall j: nat ensures Total(merged, k, j) == Total(es, k, j) {
      MergeTotals([], es, k, j);
    }
    hide Total;
  }

  lemma AddedLength(a: Shard, b: Shard, es: seq<Entry>, k: Key, i: nat)
    requires AllAgree(es) && Merge(es).Merged? && OnlyAdds(es, k) && i < |es| && es[i].key == k
    requires WritesKey(a, b, Merge(es).entries, k, -1)
    ensures k in b.values && |es[i].values| == |b.values[k]|
  {
    var m := TargetOf(es, es[i]);
    hide MergeFrom, AllAgree, Total;
    assert es[i] in es;
    var merged := Merge(es).entries;
    var x :| 0 <= x < |merged| && merged[x] == m;
    assert HasKey(merged, k);
  }

  /** A shard that the merged entries were written to has had all the entries written to it. */
  lemma MergedWrites(a: Shard, b: Shard, es: seq<Entry>)
    requires Merge(es).Merged? && Writes(a, b, Merge(es).entries)
    ensures Writes(a, b, es)
  {
    MergeFailsExactlyOnDisagreement(es);
    hide MergeFrom, AllAgree, WritesKey;
    forall k: Key, n: int | LastSet(es, k, n) ensures WritesKey(a, b, es, k, n) {
      if n >= 0 {
        MergedSetWrites(a, b, es, k, n);
      } else {
        MergedAddsWrite(a, b, es, k);
      }
    }
  }

  // ----- the barrier, the flush and a push that applies at once -----

  /** A round's entries are those of the sync workers' slots, by worker id. */
  lemma GroupedIsListed(sh: Shard, clock: int)
    ensures Grouped(sh, clock) == Listed(sh, ClockSlots(sh, clock))
  {
    SyncOnlyIncreasing(sh, Sorted(sh.workers));
    hide Sorted, SyncOnly;
    PopAllListed(sh, SyncOnly(sh, Sorted(sh.workers)), clock);
  }

  lemma {:induction false} PopAllListed(sh: Shard, ws: seq<Id>, clock: int)
    requires Increasing(ws)
    ensures PopAll(sh, ws, clock).1 == Listed(sh, AtClock(ws, clock))
    decreases |ws|
  {
    if ws != [] {
      var next := Pop(sh, Slot(ws[0], clock));
      var slots, rest := AtClock(ws, clock), AtClock(ws[1..], clock);
      assert slots[0] == Slot(ws[0], clock) && slots[1..] == rest;
      PopAllListed(next, ws[1..], clock);
      forall s | s in rest ensures PendingAt(next, s) == PendingAt(sh, s) {
        assert s.worker in ws[1..];
      }
      ListedFrame(next, sh, rest);
    }
  }

  lemma SameWrites(a: Shard, b: Shard, c: Shard, d: Shard, es: seq<Entry>)
    requires Writes(a, b, es) && c.values == a.values && d.values == b.values
    ensures Writes(c, d, es)
  {
    forall k: Key, n: int | LastSet(es, k, n) ensures WritesKey(c, d, es, k, n) {
      assert WritesKey(a, b, es, k, n);
      assert forall j: nat :: Base(c, es, k, n, j) == Base(a, es, k, n, j);
    }
  }

  /** A round that is applied writes the pending entries of its workers in the order of their ids. */
  lemma BarrierWrites(sh: Shard, clock: int)
    requires Barrier(sh, clock).1.Applied?
    ensures Writes(sh, Barrier(sh, clock).0, Listed(sh, ClockSlots(sh, clock)))
  {
    var grouped := Grouped(sh, clock);
    var popped := GroupedIs(sh, clock);
    GroupedFrom(sh, popped, clock);
    BarrierIs(sh, clock, popped, grouped);
    GroupedIsListed(sh, clock);
    hide Barrier, Grouped, ClockSlots, Listed, PopAll, SyncOnly, Sorted, Apply, MergeFrom, Writes, SyncWorkers, SlotsTaken;
    assert Merge(grouped).Merged?;
    var es := Merge(grouped).entries;
    ApplyWrites(popped, es);
    assert es[..|es|] == es;
    SameWrites(popped, Apply(popped, es).shard, sh, Barrier(sh, clock).0, es);
    MergedWrites(sh, Barrier(sh, clock).0, grouped);
  }

  /** A flush writes the pending entries slot by slot, up to the first misfit. */
  lemma FlushWrites(sh: Shard, w: Id)
    requires sh.mode == Sync
    ensures var (next, reply) := SetMode(sh, Async, w);
      var done := Apply(sh, Backlog(sh));
      && done.count <= |Backlog(sh)| && (reply.Changed? <==> done.count == |Backlog(sh)|)
      && Writes(sh, next, Backlog(sh)[..done.count]) && Counts(sh, next, Backlog(sh)[..done.count])
  {
    FlushData(sh, w);
    ApplyWrites(sh, Backlog(sh));
    hide *;
    var done, part := Apply(sh, Backlog(sh)), Backlog(sh)[..Apply(sh, Backlog(sh)).count];
    DataWritten(sh, done.shard, SetMode(sh, Async, w).0, part);
  }

  lemma DataWritten(a: Shard, b: Shard, c: Shard, es: seq<Entry>)
    requires Writes(a, b, es) && Counts(a, b, es) && SameData(b, c)
    ensures Writes(a, c, es) && Counts(a, c, es)
  {
    SameWrites(a, b, a, c, es);
    hide Writes, Mentions;
    forall k: Key ensures PullOne(c, k).1 == PullOne(a, k).1 + Mentions(es, k) {
      assert PullOne(b, k).1 == PullOne(a, k).1 + Mentions(es, k);
    }
  }

  lemma FlushData(sh: Shard, w: Id)
    requires sh.mode == Sync
    ensures var (next, reply) := SetMode(sh, Async, w);
      var done := Apply(sh, Backlog(sh));
      SameData(done.shard, next) && (reply.Changed? <==> done.ok)
  {
    var declared, slots := Declared(sh, w), AllSlots(sh);
    FlushedIs(sh, w);
    FlushAnswer(sh, w);
    AllSlotsComplete(sh);
    hide Apply, Flush, AllSlots, Listed, SetMode, Declare;
    FlushIsApply(declared, slots);
    SameListed(sh, declared, slots);
    ApplySameData(declared, sh, Backlog(sh));
  }

  lemma SameListed(a: Shard, b: Shard, slots: seq<Slot>)
    requires a.pending == b.pending
    ensures Listed(a, slots) == Listed(b, slots)
  {
    assert forall s | s in slots :: PendingAt(a, s) == PendingAt(b, s);
    ListedFrame(a, b, slots);
  }

  lemma FlushAnswer(sh: Shard, w: Id)
    requires sh.mode == Sync
    ensures SetMode(sh, Async, w).1.Changed? <==> Flush(Declared(sh, w), AllSlots(sh)).ok
  {
    SameSlots(sh, Declared(sh, w));
    hide Flush, AllSlots;
  }

  /** A push that applies at once and succeeds writes its entries. */
  lemma PushNowWrites(sh: Shard, w: Id, clock: int, entries: seq<Entry>)
    requires Merge(entries).Merged? && PushNow(sh, w, clock, Merge(entries).entries).1.Applied?
    ensures Writes(sh, PushNow(sh, w, clock, Merge(entries).entries).0, entries)
  {
    var es := Merge(entries).entries;
    ApplyWrites(sh, es);
    assert es[..|es|] == es;
    hide Apply, MergeFrom, Writes;
    SameWrites(sh, Apply(sh, es).shard, sh, PushNow(sh, w, clock, es).0, es);
    MergedWrites(sh, PushNow(sh, w, clock, es).0, entries);
  }

  // ----- what a pull then reads -----

  /**
   What a pull of the key reads from b, given what one read from a: the last value set, or else the one
   read before if there was one, plus what was added since; zero alone when there never was one.
   */
  ghost predicate PullReads(a: Shard, b: Shard, es: seq<Entry>, k: Key, n: int)
    requires -1 <= n < |es|
  {
    var read := PullOne(b, k).0;
    if k !in a.values && !HasKey(es, k) then read == [0.0]
    else
      && OneLength(a, es, k, n, |read|)
      && forall j: nat | j < |read| :: read[j] ==
           (if n >= 0 then es[n].values[j] else if k in a.values then PullOne(a, k).0[j] else 0.0)
           + Total(es[n + 1..], k, j)
  }

  lemma WrittenIsRead(a: Shard, b: Shard, es: seq<Entry>, k: Key, n: int)
    requires Writes(a, b, es) && LastSet(es, k, n)
    ensures PullReads(a, b, es, k, n)
  {
    WritesAt(a, b, es, k, n);
    hide Total, HasKey, Writes;
  }

  /** An async push answered with success is read back, last set and later additions. */
  lemma PushIsRead(sh: Shard, w: Id, clock: int, entries: seq<Entry>, expired: bool, k: Key, n: int)
    requires AppliesAtOnce(sh, w) && Succeeds(Push(sh, w, clock, entries, expired).1) && LastSet(entries, k, n)
    ensures PullReads(sh, Push(sh, w, clock, entries, expired).0, entries, k, n)
  {
    var known := Known(sh, w);
    assert known.values == sh.values;
    assert Push(sh, w, clock, entries, expired) == PushNow(known, w, clock, Merge(entries).entries);
    hide Push, LastSet, MergeFrom, Apply, Writes, AppliesAtOnce;
    PushNowWrites(known, w, clock, entries);
    SameWrites(known, Push(sh, w, clock, entries, expired).0, sh, Push(sh, w, clock, entries, expired).0, entries);
    WrittenIsRead(sh, Push(sh, w, clock, entries, expired).0, entries, k, n);
  }

  /** After a round a pull reads its entries in the order of the workers' ids: the last set wins. */
  lemma RoundIsRead(sh: Shard, clock: int, k: Key, n: int)
    requires Barrier(sh, clock).1.Applied? && LastSet(Listed(sh, ClockSlots(sh, clock)), k, n)
    ensures PullReads(sh, Barrier(sh, clock).0, Listed(sh, ClockSlots(sh, clock)), k, n)
  {
    hide *;
    BarrierWrites(sh, clock);
    WrittenIsRead(sh, Barrier(sh, clock).0, Listed(sh, ClockSlots(sh, clock)), k, n);
  }

  /** After a switch that succeeds a pull reads the whole backlog, by worker and then by clock. */
  lemma FlushIsRead(sh: Shard, w: Id, k: Key, n: int)
    requires sh.mode == Sync && SetMode(sh, Async, w).1.Changed? && LastSet(Backlog(sh), k, n)
    ensures PullReads(sh, SetMode(sh, Async, w).0, Backlog(sh), k, n)
  {
    FlushWrites(sh, w);
    hide *;
    assert Backlog(sh)[..|Backlog(sh)|] == Backlog(sh);
    WrittenIsRead(sh, SetMode(sh, Async, w).0, Backlog(sh), k, n);
  }

  // ----- over runs -----

  ghost function RoundWritten(sh: Shard, clock: int): seq<Entry> {
    match Merge(Grouped(sh, clock))
    case MergeConflict => []
    case Merged(es) => AppliedPart(sh, es)
  }

  ghost function AppliedPart(sh: Shard, es: seq<Entry>): seq<Entry> {
    ApplyWrites(sh, es);
    es[..Apply(sh, es).count]
  }

  ghost function PassWritten(sh: Shard, w: Id, clock: int): seq<Entry> {
    if Closes(sh, w, clock) then RoundWritten(sh, clock) else []
  }

  /** The entries a request writes, those before a failure included. */
  ghost function Written(sh: Shard, r: Request): seq<Entry> {
    match r
    case Registering(_) => []
    case Pushing(w, clock, entries, _) =>
      if w == 0 || clock < 0 || Merge(entries).MergeConflict? then []
      else if AppliesAtOnce(sh, w) then AppliedPart(sh, Merge(entries).entries)
      else if JoinedSlot(Known(sh, w), w, clock, entries).MergeConflict? then []
      else PassWritten(Opened(Known(sh, w), w, clock, JoinedSlot(Known(sh, w), w, clock, entries).entries), w, clock)
    case Waking(w, clock, _) => PassWritten(sh, w, clock)
    case Switching(mode, w) => if sh.mode == Sync && mode == Async then AppliedPart(sh, Backlog(sh)) else []
  }

  /** The values are written, and the versions and the clock count what was written. */
  ghost predicate Records(a: Shard, b: Shard, es: seq<Entry>) {
    Writes(a, b, es) && Counts(a, b, es)
  }

  lemma SameRecords(a: Shard, b: Shard, c: Shard, d: Shard, es: seq<Entry>)
    requires Records(a, b, es) && SameData(c, a) && SameData(d, b)
    ensures Records(c, d, es)
  {
    SameWrites(a, b, c, d, es);
    hide Writes;
    forall k: Key ensures PullOne(d, k).1 == PullOne(c, k).1 + Mentions(es, k) {
      assert PullOne(b, k).1 == PullOne(a, k).1 + Mentions(es, k);
    }
  }

  lemma RecordsNothing(a: Shard, b: Shard)
    requires SameData(a, b)
    ensures Records(a, b, [])
  {
    WritesNothing(a, b);
  }

  lemma {:induction false} MentionsBoth(es: seq<Entry>, fs: seq<Entry>, k: Key)
    ensures Mentions(es + fs, k) == Mentions(es, k) + Mentions(fs, k)
  {
    if es == [] {
      assert es + fs == fs;
    } else {
      assert (es + fs)[0] == es[0] && (es + fs)[1..] == es[1..] + fs;
      MentionsBoth(es[1..], fs, k);
    }
  }

  lemma RecordsThen(a: Shard, b: Shard, c: Shard, es: seq<Entry>, fs: seq<Entry>)
    requires Records(a, b, es) && Records(b, c, fs)
    ensures Records(a, c, es + fs)
  {
    WritesThen(a, b, c, es, fs);
    hide Writes, Mentions;
    forall k: Key ensures PullOne(c, k).1 == PullOne(a, k).1 + Mentions(es + fs, k) {
      MentionsBoth(es, fs, k);
      assert PullOne(c, k).1 == PullOne(b, k).1 + Mentions(fs, k);
    }
  }

  lemma PartRecords(a: Shard, b: Shard, es: seq<Entry>)
    requires SameData(a, b)
    ensures Records(a, Apply(b, es).shard, AppliedPart(a, es))
  {
    ApplyWrites(b, es);
    ApplySameData(a, b, es);
    hide Apply, Writes, Counts;
    SameRecords(b, Apply(b, es).shard, a, Apply(b, es).shard, es[..Apply(b, es).count]);
  }

  lemma RoundRecords(sh: Shard, clock: int)
    ensures Records(sh, Barrier(sh, clock).0, RoundWritten(sh, clock))
  {
    var grouped := Grouped(sh, clock);
    var popped := GroupedIs(sh, clock);
    GroupedFrom(sh, popped, clock);
    BarrierIs(sh, clock, popped, grouped);
    hide Barrier, Grouped, PopAll, SyncOnly, Sorted, Apply, MergeFrom, Records, SyncWorkers, SlotsTaken, AppliedPart;
    if Merge(grouped).Merged? {
      var es := Merge(grouped).entries;
      PartRecords(sh, popped, es);
      SameRecords(sh, Apply(popped, es).shard, sh, Barrier(sh, clock).0, AppliedPart(sh, es));
    } else {
      RecordsNothing(sh, Barrier(sh, clock).0);
    }
  }

  lemma PassRecords(sh: Shard, w: Id, clock: int, expired: bool)
    ensures Records(sh, Pass(sh, w, clock, expired).0, PassWritten(sh, w, clock))
  {
    RoundRecords(sh, clock);
    hide Barrier, Records, RoundWritten;
    if Closes(sh, w, clock) {
      assert Pass(sh, w, clock, expired) == Barrier(sh, clock);
    } else {
      assert Pass(sh, w, clock, expired).0 == sh;
      RecordsNothing(sh, sh);
    }
  }

  lemma AtOnceRecords(sh: Shard, w: Id, clock: int, entries: seq<Entry>, expired: bool)
    requires w != 0 && clock >= 0 && Merge(entries).Merged? && AppliesAtOnce(sh, w)
    ensures Records(sh, Push(sh, w, clock, entries, expired).0, AppliedPart(sh, Merge(entries).entries))
  {
    var known, es := Known(sh, w), Merge(entries).entries;
    assert Push(sh, w, clock, entries, expired) == PushNow(known, w, clock, es);
    hide Push, Pass, MergeFrom, Apply, Records, AppliedPart;
    PartRecords(sh, known, es);
    SameRecords(sh, Apply(known, es).shard, sh, PushNow(known, w, clock, es).0, AppliedPart(sh, es));
  }

  lemma RefusedRecords(sh: Shard, w: Id, clock: int, entries: seq<Entry>, expired: bool)
    requires w == 0 || clock < 0 || Merge(entries).MergeConflict?
      || (!AppliesAtOnce(sh, w) && JoinedSlot(Known(sh, w), w, clock, entries).MergeConflict?)
    ensures Records(sh, Push(sh, w, clock, entries, expired).0, [])
  {
    ReadySlots(Known(sh, w), w);
    hide Pass, MergeFrom, PushNow, Records;
    RecordsNothing(sh, Push(sh, w, clock, entries, expired).0);
  }

  lemma WaitingRecords(sh: Shard, w: Id, clock: int, entries: seq<Entry>, expired: bool)
    requires w != 0 && clock >= 0 && Merge(entries).Merged? && !AppliesAtOnce(sh, w)
    requires JoinedSlot(Known(sh, w), w, clock, entries).Merged?
    ensures var current := JoinedSlot(Known(sh, w), w, clock, entries).entries;
      Records(sh, Push(sh, w, clock, entries, expired).0, PassWritten(Opened(Known(sh, w), w, clock, current), w, clock))
  {
    var current := JoinedSlot(Known(sh, w), w, clock, entries).entries;
    var begun := Opened(Known(sh, w), w, clock, current);
    PushUnfolds(sh, w, clock, entries, Merge(entries).entries, current, expired);
    assert SameData(begun, sh);
    hide *;
    PassRecords(begun, w, clock, expired);
    SameDataItself(Push(sh, w, clock, entries, expired).0);
    SameDataTurned(begun, sh);
    SameRecords(begun, Push(sh, w, clock, entries, expired).0, sh, Push(sh, w, clock, entries, expired).0,
                PassWritten(begun, w, clock));
  }

  lemma SameDataItself(sh: Shard)
    ensures SameData(sh, sh)
  {
  }

  lemma SameDataTurned(a: Shard, b: Shard)
    ensures SameData(a, b) <==> SameData(b, a)
  {
  }

  lemma PushRecords(sh: Shard, w: Id, clock: int, entries: seq<Entry>, expired: bool)
    ensures var r := Pushing(w, clock, entries, expired); Records(sh, Serve(sh, r), Written(sh, r))
  {
    hide Push, Pass, MergeFrom, Records, AppliedPart, PassWritten, AppliesAtOnce, JoinedSlot;
    if w == 0 || clock < 0 || Merge(entries).MergeConflict? {
      RefusedRecords(sh, w, clock, entries, expired);
    } else if AppliesAtOnce(sh, w) {
      AtOnceRecords(sh, w, clock, entries, expired);
    } else if JoinedSlot(Known(sh, w), w, clock, entries).MergeConflict? {
      RefusedRecords(sh, w, clock, entries, expired);
    } else {
      WaitingRecords(sh, w, clock, entries, expired);
    }
  }

  lemma FlushRecords(sh: Shard, w: Id)
    requires sh.mode == Sync
    ensures Records(sh, SetMode(sh, Async, w).0, AppliedPart(sh, Backlog(sh)))
  {
    FlushWrites(sh, w);
    hide Writes, Counts, Apply, SetMode, Listed, AllSlots;
  }

  /** Every request, failing or not, changes values and versions by the entries it writes and by nothing else. */
  lemma StepRecords(sh: Shard, r: Request)
    ensures Records(sh, Serve(sh, r), Written(sh, r))
  {
    match r
    case Registering(w) => RecordsNothing(sh, Serve(sh, r));
    case Pushing(w, clock, entries, expired) => PushRecords(sh, w, clock, entries, expired);
    case Waking(w, clock, expired) => PassRecords(sh, w, clock, expired);
    case Switching(mode, w) =>
      if sh.mode == Sync && mode == Async {
        FlushRecords(sh, w);
      } else {
        assert SameData(sh, Serve(sh, r)) by { hide Flush, AllSlots; }
        RecordsNothing(sh, Serve(sh, r));
      }
  }

  /** All entries written by a run, request after request. */
  ghost function RunWritten(sh: Shard, rs: seq<Request>): seq<Entry>
    decreases |rs|
  {
    if rs == [] then [] else Written(sh, rs[0]) + RunWritten(Serve(sh, rs[0]), rs[1..])
  }

  /**
   After any run a pull reads the last value the run wrote with a set, or else the one before the run,
   plus everything the run wrote with an addition since; versions and clock count what was written.
   */
  lemma {:induction false} RunRecords(sh: Shard, rs: seq<Request>)
    ensures Records(sh, After(sh, rs), RunWritten(sh, rs))
    ensures forall k: Key, n: int | LastSet(RunWritten(sh, rs), k, n) ::
              PullReads(sh, After(sh, rs), RunWritten(sh, rs), k, n)
    decreases |rs|
  {
    if rs == [] {
      RecordsNothing(sh, sh);
    } else {
      var next := Serve(sh, rs[0]);
      StepRecords(sh, rs[0]);
      RunRecords(next, rs[1..]);
      hide Serve, Written, Records, LastSet, PullReads;
      RecordsThen(sh, next, After(sh, rs), Written(sh, rs[0]), RunWritten(next, rs[1..]));
    }
    hide After, RunWritten, Writes, PullReads;
    forall k: Key, n: int | LastSet(RunWritten(sh, rs), k, n) ensures PullReads(sh, After(sh, rs), RunWritten(sh, rs), k, n) {
      WrittenIsRead(sh, After(sh, rs), RunWritten(sh, rs), k, n);
    }
  }

  // ----- what a new shard reads, and what the answers count -----

  lemma NewIsRead(mode: Mode, initial: map<Key, seq<real>>, k: Key)
    ensures PullOne(New(mode, initial), k) == if k in initial then (initial[k], 1) else ([0.0], 0)
  {
  }

  /** The number of entries a request says it has applied, and the version it reports. */
  ghost predicate Counted(applied: nat, version: nat, next: Shard, written: seq<Entry>) {
    applied == |written| && version == next.globalClock
  }

  lemma RoundCounts(sh: Shard, clock: int)
    requires Barrier(sh, clock).1.Applied?
    ensures var (next, reply) := Barrier(sh, clock);
      Counted(reply.applied, reply.version, next, RoundWritten(sh, clock)) && reply.workers == |sh.workers|
  {
    var popped := GroupedIs(sh, clock);
    GroupedFrom(sh, popped, clock);
    hide Grouped, SyncWorkers, SlotsTaken, PopAll, SyncOnly, Sorted, Apply, MergeFrom;
    var es := Merge(Grouped(sh, clock)).entries;
    ApplyWrites(popped, es);
    ApplySameData(sh, popped, es);
    hide Writes, Counts;
  }

  /** Answers report as many entries as the request has written, and the shard's clock after it. */
  lemma AnswersCount(sh: Shard, r: Request)
    ensures var next, written := Serve(sh, r), Written(sh, r);
      match r
      case Registering(w) => w != 0 ==> Register(sh, w).1 == Registered(next.globalClock)
      case Pushing(w, clock, entries, expired) =>
        var reply := Push(sh, w, clock, entries, expired).1;
        reply.Applied? ==> Counted(reply.applied, reply.version, next, written)
      case Waking(w, clock, expired) =>
        var reply := Pass(sh, w, clock, expired).1;
        reply.Applied? ==> Counted(reply.applied, reply.version, next, written)
      case Switching(mode, w) =>
        var reply := SetMode(sh, mode, w).1;
        reply.Changed? ==> reply.previous == sh.mode && Counted(reply.flushed, reply.version, next, written)
  {
    match r
    case Registering(_) =>
    case Pushing(w, clock, entries, expired) => PushCounts(sh, w, clock, entries, expired);
    case Waking(w, clock, expired) => PassCounts(sh, w, clock, expired);
    case Switching(mode, w) =>
      if sh.mode == Sync && mode == Async {
        FlushCounts(sh, w);
      }
  }

  lemma PassCounts(sh: Shard, w: Id, clock: int, expired: bool)
    ensures var (next, reply) := Pass(sh, w, clock, expired);
      reply.Applied? ==> Counted(reply.applied, reply.version, next, PassWritten(sh, w, clock))
  {
    if Closes(sh, w, clock) && Barrier(sh, clock).1.Applied? {
      RoundCounts(sh, clock);
    }
    hide Barrier, RoundWritten;
  }

  lemma PushCounts(sh: Shard, w: Id, clock: int, entries: seq<Entry>, expired: bool)
    ensures var (next, reply) := Push(sh, w, clock, entries, expired);
      reply.Applied? ==> Counted(reply.applied, reply.version, next, Written(sh, Pushing(w, clock, entries, expired)))
  {
    var known := Known(sh, w);
    hide Pass, MergeFrom, PassWritten, Apply, PushNow;
    if w == 0 || clock < 0 || Merge(entries).MergeConflict? {
    } else if AppliesAtOnce(sh, w) {
      AtOnceCounts(sh, known, w, clock, Merge(entries).entries);
    } else if JoinedSlot(known, w, clock, entries).MergeConflict? {
    } else {
      var current := JoinedSlot(known, w, clock, entries).entries;
      PushUnfolds(sh, w, clock, entries, Merge(entries).entries, current, expired);
      PassCounts(Opened(known, w, clock, current), w, clock, expired);
    }
  }

  lemma AtOnceCounts(sh: Shard, known: Shard, w: Id, clock: int, es: seq<Entry>)
    requires SameData(sh, known)
    ensures var (next, reply) := PushNow(known, w, clock, es);
      reply.Applied? ==> Counted(reply.applied, reply.version, next, AppliedPart(sh, es))
  {
    ApplySameData(sh, known, es);
    PartSize(sh, es);
    hide Apply, AppliedPart;
  }

  lemma PartSize(sh: Shard, es: seq<Entry>)
    ensures |AppliedPart(sh, es)| == Apply(sh, es).count
  {
    ApplyWrites(sh, es);
    hide Apply, Writes, Counts;
  }

  lemma FlushCounts(sh: Shard, w: Id)
    requires sh.mode == Sync
    ensures var (next, reply) := SetMode(sh, Async, w);
      reply.Changed? ==>
        reply.previous == sh.mode && Counted(reply.flushed, reply.version, next, AppliedPart(sh, Backlog(sh)))
  {
    FlushReplies(sh, w);
    FlushData(sh, w);
    PartSize(sh, Backlog(sh));
    AllSlotsComplete(sh);
    FlushIsApply(Declared(sh, w), AllSlots(sh));
    SameListed(Declared(sh, w), sh, AllSlots(sh));
    FlushedIs(sh, w);
    ApplySameData(sh, Declared(sh, w), Backlog(sh));
    hide Apply, Flush, AllSlots, Listed, Declare, SetMode, AppliedPart;
  }

  lemma FlushReplies(sh: Shard, w: Id)
    requires sh.mode == Sync
    ensures var (next, reply) := SetMode(sh, Async, w);
      var done := Flush(Declared(sh, w), AllSlots(sh));
      reply.Changed? ==> done.ok && reply == Changed(Sync, done.count, done.shard.globalClock)
  {
    SameSlots(sh, Declared(sh, w));
    hide Flush, AllSlots, Declare;
  }
}
