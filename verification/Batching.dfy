/**
 Cutting a list of sample indices into batches of a given size, the last one possibly short:
 the slicing that both the training job and the data loader do.
 */
module Batching {
  import opened Arithmetic

  function Chop(order: seq<nat>, size: nat): seq<seq<nat>>
    requires size > 0
  {
    if order == [] then []
    else if |order| <= size then [order]
    else [order[..size]] + Chop(order[size..], size)
  }

  function Concat(parts: seq<seq<nat>>): seq<nat> {
    if parts == [] then [] else parts[0] + Concat(parts[1..])
  }

  lemma {:induction false} ChopCovers(order: seq<nat>, size: nat)
    requires size > 0
    ensures Concat(Chop(order, size)) == order
    ensures |Chop(order, size)| > 0 <==> |order| > 0
  {
    if |order| > size {
      ChopCovers(order[size..], size);
      assert order[..size] + order[size..] == order;
    } else if order != [] {
      assert Chop(order, size) == [order];
      assert Concat([order][1..]) == [];
    }
  }

  /** Every batch is full but the last, which holds the remainder. */
  lemma {:induction false} ChopSizes(order: seq<nat>, size: nat)
    requires size > 0 && |order| > 0
    ensures var list := Chop(order, size);
            && list != []
            && (forall i | 0 <= i < |list| - 1 :: |list[i]| == size)
            && |list[|list| - 1]| == if |order| % size == 0 then size else |order| % size
  {
    if |order| > size {
      ChopSizes(order[size..], size);
      ModShift(|order|, size);
    } else {
      ModSmall(|order|, size);
    }
  }

  lemma {:induction false} ConcatJoins(a: seq<seq<nat>>, b: seq<seq<nat>>)
    ensures Concat(a + b) == Concat(a) + Concat(b)
  {
    if a == [] {
      assert a + b == b;
    } else {
      ConcatJoins(a[1..], b);
      assert (a + b)[0] == a[0] && (a + b)[1..] == a[1..] + b;
      ThreeParts(a[0], Concat(a[1..]), Concat(b));
    }
  }

  lemma ThreeParts(x: seq<nat>, y: seq<nat>, z: seq<nat>)
    ensures x + (y + z) == (x + y) + z
  {
  }

  /** The number of batches is the length divided by the size, rounded up. */
  lemma {:induction false} ChopCount(order: seq<nat>, size: nat)
    requires size > 0
    ensures |Chop(order, size)| == (|order| + size - 1) / size
  {
    var n := |order|;
    if n > size {
      ChopCount(order[size..], size);
      var q := (n - 1) / size;
      DivModUnique(n + size - 1, size, q + 1, (n - 1) % size);
      assert n - size + size - 1 == n - 1;
    } else if n > 0 {
      DivModUnique(n + size - 1, size, 1, n - 1);
      assert Chop(order, size) == [order];
    } else {
      DivModUnique(size - 1, size, 0, size - 1);
    }
  }
}
