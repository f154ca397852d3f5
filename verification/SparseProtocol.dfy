/**
 Sparse updates and how several of them collapse into one per key.
 A Python dictionary from keys to entries is kept in insertion order, so it is modelled as a
 sequence of entries with pairwise distinct keys.
 */
module SparseProtocol {

  type Key = string

  datatype Op = Add | Set

  datatype Entry = Entry(key: Key, values: seq<real>, op: Op)

  datatype MergeResult = Merged(entries: seq<Entry>) | MergeConflict

  // ----- the computation -----

  /** Position of the key among the entries, or the number of entries. */
  function Find(es: seq<Entry>, key: Key): (i: nat)
    ensures i <= |es|
    ensures i < |es| ==> es[i].key == key
    ensures forall j | 0 <= j < i :: es[j].key != key
  {
    if es == [] || es[0].key == key then 0 else 1 + Find(es[1..], key)
  }

  function AddVectors(a: seq<real>, b: seq<real>): (r: seq<real>)
    requires |a| == |b|
    ensures |r| == |a|
    ensures forall j | 0 <= j < |a| :: r[j] == a[j] + b[j]
  {
    seq(|a|, j requires 0 <= j < |a| => a[j] + b[j])
  }

  function MergeInto(merged: seq<Entry>, e: Entry): MergeResult {
    var i := Find(merged, e.key);
    if i == |merged| then Merged(merged + [e])
    else
      var previous := merged[i];
      if previous.op == Set || e.op == Set then
        if previous.op == e.op then Merged(merged[i := e]) else MergeConflict
      else if |previous.values| != |e.values| then MergeConflict
      else Merged(merged[i := Entry(previous.key, AddVectors(previous.values, e.values), Add)])
  }

  function MergeFrom(merged: seq<Entry>, es: seq<Entry>): MergeResult
    decreases |es|
  {
    if es == [] then Merged(merged)
    else match MergeInto(merged, es[0])
      case MergeConflict => MergeConflict
      case Merged(next) => MergeFrom(next, es[1..])
  }

  function Merge(es: seq<Entry>): MergeResult {
    MergeFrom([], es)
  }

  method MergeEntries(es: seq<Entry>) returns (r: MergeResult)
    ensures r == Merge(es)
  {
    r := MergeOnto([], es);
  }

  /** The loop of merge_entries, started from a dictionary that may already hold entries. */
  method MergeOnto(start: seq<Entry>, es: seq<Entry>) returns (r: MergeResult)
    ensures r == MergeFrom(start, es)
  {
    var merged := start;
    var n := 0;
    while n < |es|
      invariant 0 <= n <= |es|
      invariant MergeFrom(start, es) == MergeFrom(merged, es[n..])
    {
      var e := es[n];
      var i := Find(merged, e.key);
      assert es[n..][0] == e && es[n..][1..] == es[n + 1..];
      if i == |merged| {
        merged := merged + [e];
      } else if merged[i].op == Set || e.op == Set {
        if merged[i].op == Set && e.op == Set {
          merged := merged[i := e];
        } else {
          return MergeConflict;
        }
      } else if |merged[i].values| != |e.values| {
        return MergeConflict;
      } else {
        merged := merged[i := Entry(merged[i].key, AddVectors(merged[i].values, e.values), Add)];
      }
      n := n + 1;
    }
    r := Merged(merged);
  }

  // ----- what merging promises -----

  ghost predicate DistinctKeys(es: seq<Entry>) {
    forall i, j | 0 <= i < j < |es| :: es[i].key != es[j].key
  }

  ghost predicate HasKey(es: seq<Entry>, key: Key) {
    exists i | 0 <= i < |es| :: es[i].key == key
  }

  /** Two updates of one key can live in one batch. */
  ghost predicate Agree(a: Entry, b: Entry) {
    a.key == b.key ==> a.op == b.op && (a.op == Add ==> |a.values| == |b.values|)
  }

  ghost predicate AllAgree(es: seq<Entry>) {
    forall i, j | 0 <= i < j < |es| :: Agree(es[i], es[j])
  }

  /** An update that can join all of some others. */
  ghost predicate Joins(es: seq<Entry>, e: Entry) {
    forall i | 0 <= i < |es| :: Agree(es[i], e)
  }

  lemma MergeIntoExact(merged: seq<Entry>, e: Entry)
    requires DistinctKeys(merged)
    ensures MergeInto(merged, e).Merged? <==> Joins(merged, e)
  {
    var i := Find(merged, e.key);
    if i < |merged| {
      assert MergeInto(merged, e).Merged? <==> Agree(merged[i], e);
      forall j | 0 <= j < |merged| && j != i ensures Agree(merged[j], e) {
        assert merged[j].key != merged[i].key;
      }
    }
  }

  lemma MergeIntoKeys(merged: seq<Entry>, e: Entry)
    requires DistinctKeys(merged) && MergeInto(merged, e).Merged?
    ensures DistinctKeys(MergeInto(merged, e).entries)
    ensures forall k: Key :: HasKey(MergeInto(merged, e).entries, k) <==> HasKey(merged, k) || k == e.key
  {
    var i := Find(merged, e.key);
    var next := MergeInto(merged, e).entries;
    assert |merged| <= |next| && next[i].key == e.key;
    assert forall j | 0 <= j < |merged| :: next[j].key == merged[j].key;
    assert |next| > |merged| ==> i == |merged| == |next| - 1;
  }

  lemma MergeIntoJoins(merged: seq<Entry>, e: Entry, x: Entry)
    requires DistinctKeys(merged) && MergeInto(merged, e).Merged?
    ensures Joins(MergeInto(merged, e).entries, x) <==> Joins(merged, x) && Agree(e, x)
  {
    var i := Find(merged, e.key);
    var next := MergeInto(merged, e).entries;
    assert Agree(next[i], x) <==> Agree(e, x);
    assert i < |merged| ==> (Agree(merged[i], x) <==> Agree(e, x));
    assert forall j | 0 <= j < |merged| && j != i :: next[j] == merged[j];
    if Joins(next, x) {
      assert forall j | 0 <= j < |merged| :: Agree(next[j], x);
    }
  }

  /** Merging fails exactly when two updates of one key mix operations or additive lengths. */
  lemma {:induction false} MergeFailsExactlyOnDisagreement(es: seq<Entry>)
    ensures Merge(es).Merged? <==> AllAgree(es)
    ensures Merge(es).Merged? ==> DistinctKeys(Merge(es).entries)
    ensures Merge(es).Merged? ==> forall k: Key :: HasKey(Merge(es).entries, k) <==> HasKey(es, k)
  {
    MergeFromShape([], es);
  }

  lemma {:induction false} MergeFromShape(merged: seq<Entry>, es: seq<Entry>)
    requires DistinctKeys(merged)
    ensures MergeFrom(merged, es).Merged? <==> AllAgree(es) && forall e | e in es :: Joins(merged, e)
    ensures MergeFrom(merged, es).Merged? ==>
      var result := MergeFrom(merged, es).entries;
      DistinctKeys(result) && forall k: Key :: HasKey(result, k) <==> HasKey(merged, k) || HasKey(es, k)
    decreases |es|
  {
    if es != [] {
      var e, rest := es[0], es[1..];
      MergeIntoExact(merged, e);
      AgreeFront(es);
      if MergeInto(merged, e).Merged? {
        var next := MergeInto(merged, e).entries;
        MergeIntoKeys(merged, e);
        MergeFromShape(next, rest);
        forall x | x in rest ensures Joins(next, x) <==> Joins(merged, x) && Agree(e, x) {
          MergeIntoJoins(merged, e, x);
        }
        hide MergeInto, AllAgree, Joins, Agree, DistinctKeys, HasKey;
      }
    }
  }

  /** A batch agrees when its tail does and its first update joins the tail. */
  lemma AgreeFront(es: seq<Entry>)
    requires es != []
    ensures AllAgree(es) <==> AllAgree(es[1..]) && forall x | x in es[1..] :: Agree(es[0], x)
    ensures forall k: Key :: HasKey(es, k) <==> es[0].key == k || HasKey(es[1..], k)
    ensures forall x :: x in es <==> x == es[0] || x in es[1..]
  {
    var rest := es[1..];
    assert forall i | 0 <= i < |rest| :: rest[i] == es[i + 1];
    if AllAgree(es) {
      forall x | x in rest ensures Agree(es[0], x) {
        var i :| 0 <= i < |rest| && rest[i] == x;
        assert es[i + 1] == x;
      }
    }
    forall k: Key | HasKey(rest, k) ensures HasKey(es, k) {
      var j :| 0 <= j < |rest| && rest[j].key == k;
      assert es[j + 1].key == k;
    }
    forall k: Key | HasKey(es, k) ensures es[0].key == k || HasKey(rest, k) {
      var j :| 0 <= j < |es| && es[j].key == k;
      assert j > 0 ==> rest[j - 1].key == k;
    }
    if AllAgree(rest) && forall x | x in rest :: Agree(es[0], x) {
      forall i, j | 0 <= i < j < |es| ensures Agree(es[i], es[j]) {
        assert es[j] == rest[j - 1];
        assert i > 0 ==> es[i] == rest[i - 1];
      }
    }
  }

  /** What can join the merged entries is what could join all the entries they came from. */
  lemma {:induction false} MergeFromJoins(merged: seq<Entry>, es: seq<Entry>, x: Entry)
    requires DistinctKeys(merged) && MergeFrom(merged, es).Merged?
    ensures Joins(MergeFrom(merged, es).entries, x) <==> Joins(merged, x) && forall e | e in es :: Agree(e, x)
    decreases |es|
  {
    if es != [] {
      MergeIntoKeys(merged, es[0]);
      MergeIntoJoins(merged, es[0], x);
      MergeFromJoins(MergeInto(merged, es[0]).entries, es[1..], x);
    }
  }

  /** The entry of a key that is only ever set is the last one given. */
  lemma {:induction false} LastSetWins(merged: seq<Entry>, es: seq<Entry>, n: nat)
    requires DistinctKeys(merged) && MergeFrom(merged, es).Merged?
    requires n < |es| && es[n].op == Set
    requires forall j | n < j < |es| :: es[j].key != es[n].key
    ensures es[n] in MergeFrom(merged, es).entries
    decreases |es|
  {
    MergeIntoKeys(merged, es[0]);
    var next := MergeInto(merged, es[0]).entries;
    if n > 0 {
      LastSetWins(next, es[1..], n - 1);
    } else {
      var i := Find(merged, es[0].key);
      assert next[i] == es[0];
      UntouchedEntryStays(next, es[1..], i);
    }
  }

  lemma {:induction false} UntouchedEntryStays(merged: seq<Entry>, es: seq<Entry>, i: nat)
    requires DistinctKeys(merged) && MergeFrom(merged, es).Merged?
    requires i < |merged| && forall j | 0 <= j < |es| :: es[j].key != merged[i].key
    ensures merged[i] in MergeFrom(merged, es).entries
    decreases |es|
  {
    if es != [] {
      MergeIntoKeys(merged, es[0]);
      var next := MergeInto(merged, es[0]).entries;
      assert next[i] == merged[i];
      UntouchedEntryStays(next, es[1..], i);
    }
  }

  // ----- additive updates: merging keeps the total of every coordinate -----

  /** Every update is additive and as long as the one length of its key. */
  ghost predicate Additive(es: seq<Entry>, len: Key -> nat) {
    forall i | 0 <= i < |es| :: es[i].op == Add && |es[i].values| == len(es[i].key)
  }

  function Share(e: Entry, k: Key, j: nat): real {
    if e.key == k && j < |e.values| then e.values[j] else 0.0
  }

  /** Everything the entries add to coordinate j of key k. */
  function Total(es: seq<Entry>, k: Key, j: nat): real {
    if es == [] then 0.0 else Share(es[0], k, j) + Total(es[1..], k, j)
  }

  lemma {:induction false} TotalConcat(a: seq<Entry>, b: seq<Entry>, k: Key, j: nat)
    ensures Total(a + b, k, j) == Total(a, k, j) + Total(b, k, j)
  {
    if a == [] {
      assert a + b == b;
    } else {
      TotalConcat(a[1..], b, k, j);
      assert (a + b)[0] == a[0] && (a + b)[1..] == a[1..] + b;
    }
  }

  lemma {:induction false} TotalUpdate(es: seq<Entry>, i: nat, e: Entry, k: Key, j: nat)
    requires i < |es|
    ensures Total(es[i := e], k, j) == Total(es, k, j) - Share(es[i], k, j) + Share(e, k, j)
  {
    if i == 0 {
      assert es[0 := e][1..] == es[1..];
    } else {
      TotalUpdate(es[1..], i - 1, e, k, j);
      assert es[i := e][1..] == es[1..][i - 1 := e] && es[i := e][0] == es[0];
    }
  }

  lemma {:induction false} MergeFromKeepsTotals(merged: seq<Entry>, es: seq<Entry>, len: Key -> nat)
    requires DistinctKeys(merged) && Additive(merged, len) && Additive(es, len)
    ensures MergeFrom(merged, es).Merged?
    ensures var result := MergeFrom(merged, es).entries;
      && DistinctKeys(result) && Additive(result, len)
      && (forall k: Key, j: nat :: Total(result, k, j) == Total(merged, k, j) + Total(es, k, j))
    decreases |es|
  {
    if es != [] {
      var e := es[0];
      var i := Find(merged, e.key);
      MergeIntoKeys(merged, e);
      var next := MergeInto(merged, e).entries;
      forall k: Key, j: nat ensures Total(next, k, j) == Total(merged, k, j) + Share(e, k, j) {
        if i == |merged| {
          TotalConcat(merged, [e], k, j);
          assert [e][1..] == [];
        } else {
          TotalUpdate(merged, i, next[i], k, j);
        }
      }
      MergeFromKeepsTotals(next, es[1..], len);
    }
  }
}
