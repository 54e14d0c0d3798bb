/** Small facts about sequences read as ordered, duplicate-free lists. */
module Seqs {

  ghost predicate NoDup<T>(s: seq<T>) {
    forall i, j :: 0 <= i < j < |s| ==> s[i] != s[j]
  }

  function Elems<T(==)>(s: seq<T>): set<T> {
    set x | x in s
  }

  /** `a` lists exactly the elements of `b`, each as often. */
  ghost predicate Permutes<T>(a: seq<T>, b: seq<T>) {
    multiset(a) == multiset(b)
  }

  lemma MultisetOfNoDup<T>(s: seq<T>)
    requires NoDup(s)
    ensures multiset(s) == multiset(Elems(s))
  {
    if s == [] {
    } else {
      var front := s[..|s| - 1];
      var last := s[|s| - 1];
      assert s == front + [last];
      MultisetOfNoDup(front);
      assert Elems(s) == Elems(front) + {last};
    }
  }

  /** Two duplicate-free lists of the same set are permutations of each other. */
  lemma SameElemsPermute<T>(a: seq<T>, b: seq<T>)
    requires NoDup(a) && NoDup(b) && Elems(a) == Elems(b)
    ensures Permutes(a, b)
  {
    MultisetOfNoDup(a);
    MultisetOfNoDup(b);
  }

  lemma PermuteSameElems<T>(a: seq<T>, b: seq<T>)
    requires Permutes(a, b)
    ensures Elems(a) == Elems(b) && |a| == |b|
  {
    forall x ensures x in a <==> x in b {
      assert x in a <==> x in multiset(a);
      assert x in b <==> x in multiset(b);
    }
    assert |multiset(a)| == |multiset(b)|;
  }

  lemma NoDupCount<T>(s: seq<T>, x: T)
    requires NoDup(s)
    ensures multiset(s)[x] == if x in s then 1 else 0
  {
    MultisetOfNoDup(s);
  }

  lemma NoDupFromCount<T>(s: seq<T>)
    requires forall x :: x in s ==> multiset(s)[x] <= 1
    ensures NoDup(s)
  {
    forall i, j | 0 <= i < j < |s| ensures s[i] != s[j] {
      var head, tail := s[..j], s[j..];
      assert s == head + tail;
      assert s[i] in multiset(head) by { assert head[i] == s[i]; }
      assert s[j] in multiset(tail) by { assert tail[0] == s[j]; }
      assert s[i] in s;
    }
  }

  lemma NoDupCardinality<T>(s: seq<T>)
    requires NoDup(s)
    ensures |Elems(s)| == |s|
  {
    MultisetOfNoDup(s);
    assert |multiset(s)| == |s|;
  }

  lemma NoDupConcat<T>(a: seq<T>, b: seq<T>)
    requires NoDup(a) && NoDup(b) && forall x :: x in a ==> x !in b
    ensures NoDup(a + b)
  {
    forall i, j | 0 <= i < j < |a + b| ensures (a + b)[i] != (a + b)[j] {
      assert i < |a| ==> a[i] in a;
      assert j >= |a| ==> b[j - |a|] in b;
    }
  }

  /** The rows of a query without ORDER BY: every member once, in an order the caller cannot rely on. */
  method Enumerate<T(==)>(members: set<T>) returns (rows: seq<T>)
    ensures NoDup(rows) && Elems(rows) == members
  {
    rows := [];
    var left := members;
    while left != {}
      invariant NoDup(rows) && Elems(rows) + left == members && Elems(rows) !! left
      decreases left
    {
      var x :| x in left;
      assert x !in rows by { assert x !in Elems(rows); }
      assert Elems(rows + [x]) == Elems(rows) + {x};
      rows := rows + [x];
      left := left - {x};
    }
  }

  /** `part` is `whole` with some elements left out, in the same order. */
  ghost predicate Sublist<T>(part: seq<T>, whole: seq<T>) {
    part == [] ||
    (whole != [] &&
     if part[|part| - 1] == whole[|whole| - 1] then Sublist(part[..|part| - 1], whole[..|whole| - 1])
     else Sublist(part, whole[..|whole| - 1]))
  }

  lemma {:induction false} SublistTakes<T>(part: seq<T>, whole: seq<T>, x: T)
    requires Sublist(part, whole)
    ensures Sublist(part + [x], whole + [x])
  {
    assert (part + [x])[..|part|] == part && (whole + [x])[..|whole|] == whole;
  }

  lemma {:induction false} SublistSkips<T>(part: seq<T>, whole: seq<T>, x: T)
    requires Sublist(part, whole) && x !in part
    ensures Sublist(part, whole + [x])
  {
    assert (whole + [x])[..|whole|] == whole;
    if part != [] {
      assert part[|part| - 1] in part;
    }
  }

  lemma {:induction false} KeepsOrder<T>(part: seq<T>, whole: seq<T>, x: T)
    requires Sublist(part, whole)
    ensures Sublist(part + [x], whole + [x])
    ensures x !in part ==> Sublist(part, whole + [x])
  {
    SublistTakes(part, whole, x);
    if x !in part {
      SublistSkips(part, whole, x);
    }
  }

  lemma {:induction false} SublistElems<T>(part: seq<T>, whole: seq<T>)
    requires Sublist(part, whole)
    ensures forall x :: x in part ==> x in whole
  {
    if part != [] {
      var p, w := part[|part| - 1], whole[|whole| - 1];
      assert part == part[..|part| - 1] + [p] && whole == whole[..|whole| - 1] + [w];
      SublistElems(if p == w then part[..|part| - 1] else part, whole[..|whole| - 1]);
    }
  }

  lemma {:induction false} SublistOfSublist<T>(a: seq<T>, b: seq<T>, c: seq<T>)
    requires Sublist(a, b) && Sublist(b, c) && NoDup(c)
    ensures Sublist(a, c)
    decreases |c|
  {
    if a != [] {
      var n, front := |c| - 1, c[..|c| - 1];
      assert c == front + [c[n]];
      if b[|b| - 1] != c[n] {
        SublistOfSublist(a, b, front);
        SublistElems(a, front);
        SublistSkips(a, front, c[n]);
      } else if a[|a| - 1] == c[n] {
        SublistOfSublist(a[..|a| - 1], b[..|b| - 1], front);
      } else {
        SublistOfSublist(a, b[..|b| - 1], front);
      }
    }
  }

  lemma ElemsTake<T>(items: seq<T>, i: nat)
    requires i < |items|
    ensures items[..i + 1] == items[..i] + [items[i]] && items[i] in items
    ensures Elems(items[..i + 1]) == Elems(items[..i]) + {items[i]}
    ensures NoDup(items) ==> items[i] !in items[..i] && items[i] !in Elems(items[..i])
  {
  }

  lemma ElemsSnoc<T>(items: seq<T>, x: T)
    ensures Elems(items + [x]) == Elems(items) + {x}
  {
  }

  lemma ElemsSum<T>(a: seq<T>, b: seq<T>)
    ensures Elems(a + b) == Elems(a) + Elems(b)
  {
  }
}
