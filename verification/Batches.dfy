/** Cutting a list of workers into batches: sizes, counts and the batch iterator. */
module Batches {
  function Min(a: int, b: int): int {
    if a < b then a else b
  }

  function EffectiveBatchSize(requested: int, total: nat): (size: nat)
    ensures size <= total && (total > 0 ==> size > 0)
  {
    if requested < 1 then total else if requested > total then total else requested
  }

  function BatchCount(total: nat, requested: int): int {
    if total == 0 then 0
    else
      var size := if requested < 1 then total else requested;
      (total + size - 1) / size
  }

  /** The contiguous batches of a list, all full except perhaps the last. */
  function Cut(items: seq<string>, size: nat): seq<seq<string>>
    requires size > 0
    decreases |items|
  {
    if items == [] then []
    else if |items| <= size then [items]
    else [items[..size]] + Cut(items[size..], size)
  }

  function Flat(batches: seq<seq<string>>): seq<string> {
    if batches == [] then [] else batches[0] + Flat(batches[1..])
  }

  /** The quotient is the only number between whose multiples the dividend lies. */
  lemma QuotientIs(a: nat, d: nat, q: int)
    requires d > 0 && d * q <= a < d * (q + 1)
    ensures a / d == q
  {
    var p := a / d;
    assert a == d * p + a % d;
    Distributes(d, p);
    if p > q {
      MultiplesGrow(d, q + 1, p);
    } else if p < q {
      MultiplesGrow(d, p + 1, q);
    }
  }

  lemma Distributes(d: nat, p: int)
    ensures d * (p + 1) == d * p + d
  {
  }

  lemma MultiplesGrow(d: nat, x: int, y: int)
    requires x <= y
    ensures d * x <= d * y
  {
  }

  lemma DivShift(a: nat, d: nat)
    requires d > 0
    ensures (a + d) / d == a / d + 1
  {
    var q := a / d;
    assert a == d * q + a % d;
    assert d * (q + 1) == d * q + d && d * (q + 2) == d * q + d + d;
    QuotientIs(a + d, d, q + 1);
  }

  lemma {:induction false} CutSpec(items: seq<string>, size: nat)
    requires size > 0
    ensures Flat(Cut(items, size)) == items
    ensures |Cut(items, size)| == BatchCount(|items|, size)
    ensures forall k :: 0 <= k < |Cut(items, size)| ==> 0 < |Cut(items, size)[k]| <= size
    ensures forall k :: 0 <= k < |Cut(items, size)| - 1 ==> |Cut(items, size)[k]| == size
    decreases |items|
  {
    if items == [] {
    } else if |items| <= size {
      assert |items| - 1 < size;
      assert (|items| + size - 1) / size == 1 by {
        DivShift(|items| - 1, size);
      }
      assert [items][1..] == [];
    } else {
      var rest := items[size..];
      CutSpec(rest, size);
      DivShift(|rest| + size - 1, size);
      assert Cut(items, size)[1..] == Cut(rest, size);
    }
  }

  lemma OneBatch(n: nat)
    requires n > 0
    ensures (n + n - 1) / n == 1
  {
    assert n * 1 == n && n * 2 == n + n;
    QuotientIs(n + n - 1, n, 1);
  }

  /** The batch count is the ceiling of the quotient. */
  lemma CountIsCeiling(total: nat, size: nat)
    requires size > 0
    ensures var n := BatchCount(total, size); n * size >= total && (n > 0 ==> (n - 1) * size < total)
  {
  }

  /** Where the k-th batch starts, and that a start divided by the size gives back k. */
  lemma {:induction false} CutAt(items: seq<string>, size: nat, k: nat)
    requires size > 0 && k < |Cut(items, size)|
    ensures 0 <= k * size < |items|
    ensures Cut(items, size)[k] == items[k * size..Min(k * size + size, |items|)]
    ensures (k * size) / size == k
    decreases k
  {
    if k > 0 {
      var rest := items[size..];
      assert Cut(items, size)[k] == Cut(rest, size)[k - 1];
      CutAt(rest, size, k - 1);
      var before := (k - 1) * size;
      assert before + size == k * size;
      DivShift(before, size);
      assert rest[before..Min(before + size, |rest|)] == items[before + size..Min(before + size + size, |items|)];
    }
  }

  lemma {:induction false} CutReaches(items: seq<string>, size: nat, k: nat)
    requires size > 0 && k * size < |items|
    ensures k < |Cut(items, size)|
    decreases k
  {
    if k > 0 {
      assert k * size == (k - 1) * size + size && (k - 1) * size >= 0;
      CutReaches(items[size..], size, k - 1);
    }
  }

  lemma {:induction false} FlatSnoc(batches: seq<seq<string>>, batch: seq<string>)
    ensures Flat(batches + [batch]) == Flat(batches) + batch
  {
    if batches == [] {
      assert ([] + [batch])[1..] == [];
    } else {
      assert (batches + [batch])[1..] == batches[1..] + [batch];
      FlatSnoc(batches[1..], batch);
    }
  }

  lemma {:induction false} FlatSplit(batches: seq<seq<string>>, n: nat)
    requires n <= |batches|
    ensures Flat(batches) == Flat(batches[..n]) + Flat(batches[n..])
  {
    if n == 0 {
      assert batches[..0] == [] && batches[0..] == batches;
    } else {
      FlatSplit(batches, n - 1);
      FlatTake(batches, n - 1);
      assert batches[n - 1..][1..] == batches[n..];
    }
  }

  lemma FlatTake(batches: seq<seq<string>>, n: nat)
    requires n < |batches|
    ensures Flat(batches[..n + 1]) == Flat(batches[..n]) + batches[n]
  {
    assert batches[..n + 1] == batches[..n] + [batches[n]];
    FlatSnoc(batches[..n], batches[n]);
  }

  /** The closure's captured index, as an object. */
  class BatchIterator {
    const items: seq<string>
    const size: nat
    var index: nat

    ghost predicate Valid()
      reads this
    {
      size > 0 && index <= |items|
    }

    ghost function Pending(): seq<seq<string>>
      requires Valid()
      reads this
    {
      Cut(items[index..], size)
    }

    constructor (items: seq<string>, batchSize: int)
      ensures Valid() && Pending() == Cut(items, if batchSize <= 0 then 1 else batchSize)
    {
      this.items := items;
      this.size := if batchSize <= 0 then 1 else batchSize;
      this.index := 0;
      new;
      assert this.items[0..] == items;
    }

    method Next() returns (batch: seq<string>, more: bool)
      requires Valid()
      modifies this
      ensures Valid()
      ensures more <==> old(Pending()) != []
      ensures Pending() == if more then old(Pending())[1..] else []
      ensures batch == if more then old(Pending())[0] else []
    {
      if index >= |items| {
        return [], false;
      }
      var end := if index + size > |items| then |items| else index + size;
      batch := items[index..end];
      assert items[index..][..end - index] == batch;
      assert items[index..][end - index..] == items[end..];
      index := end;
      return batch, true;
    }
  }
}
