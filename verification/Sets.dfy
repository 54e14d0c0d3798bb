/** List-as-set helpers: deduplication, difference and selection, each a loop over a seen or excluded set. */
module Sets {
  import opened Seqs

  /** The elements of `a` outside `b`, in the order of `a`. */
  function Minus(a: seq<string>, b: set<string>): seq<string> {
    if a == [] then []
    else
      var front := Minus(a[..|a| - 1], b);
      if a[|a| - 1] in b then front else front + [a[|a| - 1]]
  }

  /** The elements of `a` inside `b`, in the order of `a`. */
  function Only(a: seq<string>, b: set<string>): seq<string> {
    if a == [] then []
    else
      var front := Only(a[..|a| - 1], b);
      if a[|a| - 1] in b then front + [a[|a| - 1]] else front
  }

  lemma {:induction false} MinusSpec(a: seq<string>, b: set<string>)
    ensures forall x :: x in Minus(a, b) <==> x in a && x !in b
    ensures NoDup(a) ==> NoDup(Minus(a, b))
  {
    if a != [] {
      var front, last := a[..|a| - 1], a[|a| - 1];
      MinusSpec(front, b);
      assert a == front + [last];
    }
  }

  lemma {:induction false} OnlySpec(a: seq<string>, b: set<string>)
    ensures forall x :: x in Only(a, b) <==> x in a && x in b
    ensures NoDup(a) ==> NoDup(Only(a, b))
  {
    if a != [] {
      var front, last := a[..|a| - 1], a[|a| - 1];
      OnlySpec(front, b);
      assert a == front + [last];
    }
  }

  /** What is chosen keeps its order, and its repetitions. */
  lemma {:induction false} OnlyKeepsOrder(a: seq<string>, b: set<string>)
    ensures Sublist(Only(a, b), a)
    ensures forall x :: multiset(Only(a, b))[x] == if x in b then multiset(a)[x] else 0
  {
    if a != [] {
      var front, last := a[..|a| - 1], a[|a| - 1];
      assert a == front + [last];
      OnlyKeepsOrder(front, b);
      OnlySpec(front, b);
      KeepsOrder(Only(front, b), front, last);
    }
  }

  lemma {:induction false} MinusKeepsOrder(a: seq<string>, b: set<string>)
    ensures Sublist(Minus(a, b), a)
    ensures forall x :: multiset(Minus(a, b))[x] == if x in b then 0 else multiset(a)[x]
  {
    if a != [] {
      var front, last := a[..|a| - 1], a[|a| - 1];
      assert a == front + [last];
      MinusKeepsOrder(front, b);
      MinusSpec(front, b);
      KeepsOrder(Minus(front, b), front, last);
    }
  }

  lemma {:induction false} OnlyAll(a: seq<string>, b: set<string>)
    requires Elems(a) <= b
    ensures Only(a, b) == a
  {
    if a != [] {
      var front, last := a[..|a| - 1], a[|a| - 1];
      assert a == front + [last];
      assert forall x :: x in front ==> x in Elems(a);
      assert last in Elems(a);
      OnlyAll(front, b);
    }
  }

  method ToSet(values: seq<string>) returns (index: set<string>)
    ensures index == Elems(values)
  {
    index := {};
    for i := 0 to |values|
      invariant index == Elems(values[..i])
    {
      assert values[..i + 1] == values[..i] + [values[i]];
      index := index + {values[i]};
    }
    assert values[..|values|] == values;
  }

  method Difference(a: seq<string>, b: seq<string>) returns (diff: seq<string>)
    ensures diff == Minus(a, Elems(b))
    ensures forall x :: x in diff <==> x in a && x !in b
    ensures NoDup(a) ==> NoDup(diff)
  {
    var exclude := ToSet(b);
    diff := [];
    for i := 0 to |a|
      invariant diff == Minus(a[..i], exclude)
    {
      assert a[..i + 1][..i] == a[..i];
      if a[i] !in exclude {
        diff := diff + [a[i]];
      }
    }
    assert a[..|a|] == a;
    MinusSpec(a, exclude);
  }

  /** Every value once, where it first occurs. */
  function Distinct(values: seq<string>): seq<string> {
    if values == [] then []
    else
      var front := Distinct(values[..|values| - 1]);
      if values[|values| - 1] in front then front else front + [values[|values| - 1]]
  }

  lemma {:induction false} DistinctSpec(values: seq<string>)
    ensures NoDup(Distinct(values))
    ensures forall x :: x in Distinct(values) <==> x in values
    ensures NoDup(values) ==> Distinct(values) == values
  {
    if values != [] {
      var front, last := values[..|values| - 1], values[|values| - 1];
      DistinctSpec(front);
      assert values == front + [last];
    }
  }

  /** A value stands right after the values that occur before it first does. */
  lemma {:induction false} FirstOccurs(values: seq<string>, i: nat)
    requires i < |values| && values[i] !in values[..i]
    ensures Distinct(values[..i]) + [values[i]] <= Distinct(values)
    decreases |values|
  {
    var n := |values| - 1;
    if i < n {
      assert values[..n][..i] == values[..i];
      FirstOccurs(values[..n], i);
    } else {
      DistinctSpec(values[..i]);
    }
  }

  method Unique(values: seq<string>) returns (unique: seq<string>)
    ensures unique == Distinct(values)
    ensures NoDup(unique) && forall x :: x in unique <==> x in values
  {
    unique := [];
    var seen: set<string> := {};
    for i := 0 to |values|
      invariant unique == Distinct(values[..i]) && seen == Elems(unique)
    {
      assert values[..i + 1][..i] == values[..i];
      if values[i] !in seen {
        seen := seen + {values[i]};
        unique := unique + [values[i]];
      }
    }
    assert values[..|values|] == values;
    DistinctSpec(values);
  }
}
