/** The order a rollout takes its workers in: the rollout_order value when it fits, the catalog order otherwise. */
module Ordering {
  import opened Options
  import opened Seqs
  import opened Sets
  import opened Text

  datatype OrderSource = NoOrder | FromKv | FromCatalog

  datatype Resolved = Resolved(ordered: seq<string>, fullOrder: string, source: OrderSource)

  /* ---- what each step computes ---- */

  /** The stored value, when the key is there and not blank. */
  function ReadRolloutOrder(stored: Option<string>): Option<string> {
    if stored.None? || TrimSpace(stored.value) == "" then None else Some(TrimSpace(stored.value))
  }

  /** The non-blank pieces, trimmed. */
  function Trims(parts: seq<string>): seq<string> {
    if parts == [] then []
    else
      var front, last := Trims(parts[..|parts| - 1]), TrimSpace(parts[|parts| - 1]);
      if last == "" then front else front + [last]
  }

  /** Candidates in catalog order, then the candidates the catalog does not have, each once. */
  function CatalogOrder(catalog: seq<string>, candidates: seq<string>): seq<string> {
    var known := Only(catalog, Elems(candidates));
    known + Distinct(Minus(candidates, Elems(known)))
  }

  predicate ValidOrder(order: seq<string>, active: set<string>)
    ensures ValidOrder(order, active) ==> NoDup(order)
  {
    DistinctSpec(order);
    Distinct(order) == order && Elems(order) == active
  }

  function Resolve(catalog: seq<string>, candidates: seq<string>, stored: Option<string>): Resolved {
    if candidates == [] then Resolved([], "", NoOrder)
    else
      var raw, default := ReadRolloutOrder(stored), CatalogOrder(catalog, candidates);
      if raw.Some? && ValidOrder(Trims(Split(raw.value, ',')), Elems(candidates)) then
        Resolved(Only(Trims(Split(raw.value, ',')), Elems(candidates)), raw.value, FromKv)
      else Resolved(default, Join(default, ","), FromCatalog)
  }

  /* ---- the program ---- */

  method ParseOrderList(raw: string) returns (order: seq<string>)
    ensures order == Trims(Split(raw, ','))
  {
    var parts := Split(raw, ',');
    order := [];
    for i := 0 to |parts|
      invariant order == Trims(parts[..i])
    {
      assert parts[..i + 1][..i] == parts[..i];
      var part := TrimSpace(parts[i]);
      if part == "" {
        continue;
      }
      order := order + [part];
    }
    assert parts[..|parts|] == parts;
  }

  method ValidateRolloutOrderList(order: seq<string>, active: set<string>) returns (valid: bool)
    ensures valid <==> ValidOrder(order, active)
    ensures valid <==> NoDup(order) && Elems(order) == active
  {
    DistinctSpec(order);
    if |order| == 0 && |active| > 0 {
      assert Elems(order) == {};
      return false;
    }
    var seen: set<string> := {};
    for i := 0 to |order|
      invariant NoDup(order[..i]) && seen == Elems(order[..i]) && seen <= active
    {
      assert order[..i + 1] == order[..i] + [order[i]];
      if order[i] in seen {
        assert !NoDup(order) by {
          var j :| 0 <= j < i && order[..i][j] == order[i];
          assert order[j] == order[i];
        }
        return false;
      }
      seen := seen + {order[i]};
      if order[i] !in active {
        assert order[i] in Elems(order);
        return false;
      }
    }
    assert order[..|order|] == order;
    var missing := active;
    while missing != {}
      invariant missing <= active && forall ip :: ip in active && ip !in missing ==> ip in seen
      decreases missing
    {
      var ip :| ip in missing;
      missing := missing - {ip};
      if ip !in seen {
        return false;
      }
    }
    return true;
  }

  method Contains(items: seq<string>, x: string) returns (found: bool)
    ensures found <==> x in items
  {
    for i := 0 to |items|
      invariant x !in items[..i]
    {
      assert items[..i + 1] == items[..i] + [items[i]];
      if items[i] == x {
        return true;
      }
    }
    assert items[..|items|] == items;
    return false;
  }

  lemma {:induction false} UnknownSnoc(known: seq<string>, front: seq<string>, x: string)
    ensures var before, after := Distinct(Minus(front, Elems(known))), Distinct(Minus(front + [x], Elems(known)));
      known + after == if x in known + before then known + before else known + before + [x]
  {
  }

  method DefaultCatalogOrder(catalog: seq<string>, candidates: seq<string>) returns (ordered: seq<string>)
    ensures ordered == CatalogOrder(catalog, candidates)
  {
    ordered := OrderByList(candidates, catalog);
    ghost var known := ordered;
    for i := 0 to |candidates|
      invariant ordered == known + Distinct(Minus(candidates[..i], Elems(known)))
    {
      assert candidates[..i + 1] == candidates[..i] + [candidates[i]];
      UnknownSnoc(known, candidates[..i], candidates[i]);
      var found := Contains(ordered, candidates[i]);
      if !found {
        ordered := ordered + [candidates[i]];
      }
    }
    assert candidates[..|candidates|] == candidates;
  }

  method OrderByList(candidates: seq<string>, order: seq<string>) returns (ordered: seq<string>)
    ensures ordered == Only(order, Elems(candidates))
  {
    var candidateSet := ToSet(candidates);
    ordered := [];
    for i := 0 to |order|
      invariant ordered == Only(order[..i], candidateSet)
    {
      assert order[..i + 1][..i] == order[..i];
      if order[i] in candidateSet {
        ordered := ordered + [order[i]];
      }
    }
    assert order[..|order|] == order;
  }

  /** `catalog` lists the job's non-removed rows by worker position; `stored` is the rollout_order key. */
  method ResolveRolloutOrder(catalog: seq<string>, candidates: seq<string>, stored: Option<string>)
    returns (r: Resolved)
    ensures r == Resolve(catalog, candidates, stored)
  {
    if |candidates| == 0 {
      return Resolved([], "", NoOrder);
    }
    var active := ToSet(candidates);
    var default := DefaultCatalogOrder(catalog, candidates);
    var raw := ReadRolloutOrder(stored);
    if raw.None? {
      return Resolved(default, Join(default, ","), FromCatalog);
    }
    var order := ParseOrderList(raw.value);
    var valid := ValidateRolloutOrderList(order, active);
    if !valid {
      return Resolved(default, Join(default, ","), FromCatalog);
    }
    var ordered := OrderByList(candidates, order);
    return Resolved(ordered, raw.value, FromKv);
  }

  /* ---- what holds of a parsed list ---- */

  /** A piece of a list as someone wrote it: a name, or nothing, with white space around it. */
  datatype Piece = Piece(before: string, name: string, after: string)

  ghost predicate Written(pieces: seq<Piece>) {
    forall x :: x in pieces ==>
      Blank(x.before) && Blank(x.after) && Trimmed(x.name) && ',' !in x.name
  }

  function TextOf(x: Piece): string {
    x.before + x.name + x.after
  }

  function TextsOf(pieces: seq<Piece>): seq<string> {
    seq(|pieces|, i requires 0 <= i < |pieces| => TextOf(pieces[i]))
  }

  function NamesOf(pieces: seq<Piece>): seq<string> {
    seq(|pieces|, i requires 0 <= i < |pieces| => pieces[i].name)
  }

  /** The list as one text, and the names in it. */
  function ListText(pieces: seq<Piece>): string {
    Join(TextsOf(pieces), ",")
  }

  function Listed(pieces: seq<Piece>): seq<string> {
    Minus(NamesOf(pieces), {""})
  }

  /** However a list is written: its parts read back are the names in it, in order, the empty ones left out. */
  lemma {:induction false} WrittenReads(pieces: seq<Piece>)
    requires pieces != [] && Written(pieces)
    ensures Trims(Split(ListText(pieces), ',')) == Listed(pieces)
  {
    forall p | p in TextsOf(pieces) ensures ',' !in p {
      var i :| 0 <= i < |pieces| && TextOf(pieces[i]) == p;
      assert pieces[i] in pieces;
    }
    SplitOfJoin(TextsOf(pieces), ',');
    TrimsTexts(pieces);
  }

  lemma {:induction false} TrimsTexts(pieces: seq<Piece>)
    requires Written(pieces)
    ensures Trims(TextsOf(pieces)) == Minus(NamesOf(pieces), {""})
  {
    if pieces != [] {
      var front, last := pieces[..|pieces| - 1], pieces[|pieces| - 1];
      assert pieces == front + [last];
      TrimsTexts(front);
      TrimsPadding(last.before, last.name, last.after);
      assert TextsOf(pieces)[..|front|] == TextsOf(front) && NamesOf(pieces)[..|front|] == NamesOf(front);
    }
  }

  /** Trimming the whole value first makes no difference to the names read from it. */
  lemma {:induction false} TrimmedWhole(s: string)
    ensures Trims(Split(TrimSpace(s), ',')) == Trims(Split(s, ','))
  {
    var core := TrimSpace(s);
    var before, after := Trimming(s);
    SplitBefore(before, core, ',');
    SplitAfter(before + core, after, ',');
    PaddedFirst(before, Split(core, ','));
    PaddedLast(Split(before + core, ','), after);
  }

  lemma {:induction false} PaddedFirst(pad: string, parts: seq<string>)
    requires parts != [] && Blank(pad)
    ensures Trims([pad + parts[0]] + parts[1..]) == Trims(parts)
  {
    var padded, n := [pad + parts[0]] + parts[1..], |parts| - 1;
    PaddedTrims(pad, parts[0], "");
    assert pad + parts[0] + "" == pad + parts[0];
    if n > 0 {
      PaddedFirst(pad, parts[..n]);
      assert padded[..n] == [pad + parts[..n][0]] + parts[..n][1..];
    } else {
      assert padded[..0] == parts[..0];
    }
  }

  lemma {:induction false} PaddedLast(parts: seq<string>, pad: string)
    requires parts != [] && Blank(pad)
    ensures Trims(parts[..|parts| - 1] + [parts[|parts| - 1] + pad]) == Trims(parts)
  {
    var front, last := parts[..|parts| - 1], parts[|parts| - 1];
    assert parts == front + [last];
    TrimsSnoc(front, last);
    TrimsSnoc(front, last + pad);
    PaddedTrims("", last, pad);
    assert "" + last + pad == last + pad;
  }

  lemma {:induction false} TrimsSnoc(parts: seq<string>, part: string)
    ensures Trims(parts + [part]) == Trims(parts) + (if TrimSpace(part) == "" then [] else [TrimSpace(part)])
  {
    assert (parts + [part])[..|parts|] == parts;
  }

  lemma PaddedTrims(before: string, s: string, after: string)
    requires Blank(before) && Blank(after)
    ensures TrimSpace(before + s + after) == TrimSpace(s)
  {
    var left, right := Trimming(s);
    TrimSpaceTrims(s);
    TrimsPadding(before + left, TrimSpace(s), right + after);
    assert before + s + after == (before + left) + TrimSpace(s) + (right + after);
  }

  /* ---- what holds of the resolved order ---- */

  lemma ValidIffPermutation(order: seq<string>, candidates: seq<string>)
    requires NoDup(candidates)
    ensures ValidOrder(order, Elems(candidates)) <==> Permutes(order, candidates)
  {
    DistinctSpec(order);
    if ValidOrder(order, Elems(candidates)) {
      SameElemsPermute(order, candidates);
    } else if Permutes(order, candidates) {
      PermuteSameElems(order, candidates);
      forall x | x in order ensures multiset(order)[x] <= 1 {
        NoDupCount(candidates, x);
      }
      NoDupFromCount(order);
      assert false;
    }
  }

  lemma CatalogOrderIsPermutation(catalog: seq<string>, candidates: seq<string>)
    requires NoDup(catalog) && NoDup(candidates)
    ensures Permutes(CatalogOrder(catalog, candidates), candidates)
  {
    var known := Only(catalog, Elems(candidates));
    var rest := Minus(candidates, Elems(known));
    OnlySpec(catalog, Elems(candidates));
    MinusSpec(candidates, Elems(known));
    DistinctSpec(rest);
    var ordered := known + Distinct(rest);
    NoDupConcat(known, Distinct(rest));
    assert Elems(ordered) == Elems(candidates);
    SameElemsPermute(ordered, candidates);
  }

  /** The catalog order: the candidates it has as it lists them, then the others as they came. */
  lemma CatalogOrderKeepsOrder(catalog: seq<string>, candidates: seq<string>)
    returns (known: seq<string>, rest: seq<string>)
    requires NoDup(catalog) && NoDup(candidates)
    ensures CatalogOrder(catalog, candidates) == known + rest
    ensures Sublist(known, catalog) && forall w :: w in known <==> w in catalog && w in candidates
    ensures Sublist(rest, candidates) && forall w :: w in rest <==> w in candidates && w !in catalog
  {
    known := Only(catalog, Elems(candidates));
    rest := Minus(candidates, Elems(known));
    OnlySpec(catalog, Elems(candidates));
    OnlyKeepsOrder(catalog, Elems(candidates));
    MinusSpec(candidates, Elems(known));
    MinusKeepsOrder(candidates, Elems(known));
    DistinctSpec(rest);
  }

  /** Whatever the stored text is, every candidate is rolled out exactly once. */
  lemma ResolvedIsPermutation(catalog: seq<string>, candidates: seq<string>, stored: Option<string>)
    requires NoDup(catalog) && NoDup(candidates)
    ensures Permutes(Resolve(catalog, candidates, stored).ordered, candidates)
  {
    CatalogOrderIsPermutation(catalog, candidates);
    var r := Resolve(catalog, candidates, stored);
    if r.source == FromKv {
      var order := Trims(Split(ReadRolloutOrder(stored).value, ','));
      OnlyAll(order, Elems(candidates));
      ValidIffPermutation(order, candidates);
    }
  }

  /** The stored order is used exactly when its parsed list is itself a permutation of the candidates. */
  lemma SourceIsKvIff(catalog: seq<string>, candidates: seq<string>, stored: Option<string>)
    requires NoDup(candidates) && candidates != []
    ensures var r, raw := Resolve(catalog, candidates, stored), ReadRolloutOrder(stored);
      && (r.source == FromKv <==> raw.Some? && Permutes(Trims(Split(raw.value, ',')), candidates))
      && (r.source == FromKv ==> r.ordered == Trims(Split(raw.value, ',')))
      && (r.source != FromKv ==> r.source == FromCatalog && r.ordered == CatalogOrder(catalog, candidates))
  {
    var raw := ReadRolloutOrder(stored);
    if raw.Some? {
      var order := Trims(Split(raw.value, ','));
      ValidIffPermutation(order, candidates);
      if ValidOrder(order, Elems(candidates)) {
        OnlyAll(order, Elems(candidates));
      }
    }
  }

  /** A stored order of exactly the candidates is taken, however it is written. */
  lemma StoredOrderIsTaken(catalog: seq<string>, candidates: seq<string>, pieces: seq<Piece>)
    requires NoDup(candidates) && candidates != [] && pieces != [] && Written(pieces)
    requires Permutes(Listed(pieces), candidates)
    ensures var r := Resolve(catalog, candidates, Some(ListText(pieces)));
      r.source == FromKv && r.ordered == Listed(pieces)
  {
    var text := ListText(pieces);
    TrimmedWhole(text);
    WrittenReads(pieces);
    SourceIsKvIff(catalog, candidates, Some(text));
    assert |multiset(candidates)| == |candidates|;
    if TrimSpace(text) == "" {
      NothingToRead();
      assert false;
    }
  }

  lemma NothingToRead()
    ensures Trims(Split("", ',')) == []
  {
    assert Split("", ',') == [""];
    assert [""][..0] == [];
  }

  /** A stored order for all active workers does not order a rollout of some of them. */
  lemma PartialRolloutIgnoresStoredOrder(
    catalog: seq<string>, active: seq<string>, candidates: seq<string>, stored: Option<string>)
    requires NoDup(active) && NoDup(candidates) && candidates != [] && Elems(candidates) <= Elems(active)
    requires ReadRolloutOrder(stored).Some? && Permutes(Trims(Split(ReadRolloutOrder(stored).value, ',')), active)
    ensures Resolve(catalog, candidates, stored).source == FromKv <==> Elems(candidates) == Elems(active)
  {
    var order := Trims(Split(ReadRolloutOrder(stored).value, ','));
    SourceIsKvIff(catalog, candidates, stored);
    PermuteSameElems(order, active);
    if Permutes(order, candidates) {
      PermuteSameElems(order, candidates);
    }
    if Elems(candidates) == Elems(active) {
      SameElemsPermute(candidates, active);
    }
  }

  lemma StoredExample()
    ensures ReadRolloutOrder(Some("c,b,a")) == Some("c,b,a") && Trims(Split("c,b,a", ',')) == ["c", "b", "a"]
  {
    assert Join(["a"], ",") == "a";
    assert Join(["b", "a"], ",") == "b,a";
    assert Join(["c", "b", "a"], ",") == "c,b,a";
    JoinReads(["c", "b", "a"]);
  }

  /** For example: the order c, b, a is stored, and updating a and b takes them in catalog order. */
  lemma PartialRolloutExample()
    ensures Resolve(["a", "b", "c"], ["a", "b"], Some("c,b,a")) == Resolved(["a", "b"], "a,b", FromCatalog)
  {
    StoredExample();
    OnlyExample();
    SourceIsKvIff(["a", "b", "c"], ["a", "b"], Some("c,b,a"));
    if Permutes(["c", "b", "a"], ["a", "b"]) {
      PermuteSameElems(["c", "b", "a"], ["a", "b"]);
      assert false;
    }
  }

  lemma OnlyExample()
    ensures CatalogOrder(["a", "b", "c"], ["a", "b"]) == ["a", "b"] && Join(["a", "b"], ",") == "a,b"
  {
    var chosen := Elems(["a", "b"]);
    assert "a" in chosen && "b" in chosen && "c" !in chosen;
    OnlyAll(["a", "b"], chosen);
    assert ["a", "b", "c"][..2] == ["a", "b"];
    assert Only(["a", "b", "c"], chosen) == ["a", "b"];
    MinusSpec(["a", "b"], chosen);
    assert Minus(["a", "b"], chosen) == [];
  }

  lemma {:induction false} TrimsOfTrimmed(parts: seq<string>)
    requires forall p :: p in parts ==> p != "" && Trimmed(p)
    ensures Trims(parts) == parts
  {
    if parts != [] {
      var front, last := parts[..|parts| - 1], parts[|parts| - 1];
      assert parts == front + [last];
      assert forall p :: p in front ==> p in parts;
      TrimsOfTrimmed(front);
      TrimSpaceOfTrimmed(last);
    }
  }

  /** Storing the order a rollout reports makes the next rollout of the same workers take that order. */
  lemma ReportedOrderIsStable(catalog: seq<string>, candidates: seq<string>, stored: Option<string>)
    requires NoDup(catalog) && NoDup(candidates) && candidates != []
    requires forall w :: w in candidates ==> w != "" && Trimmed(w) && ',' !in w
    ensures var r := Resolve(catalog, candidates, stored);
      Resolve(catalog, candidates, Some(r.fullOrder)).ordered == r.ordered
      && Resolve(catalog, candidates, Some(r.fullOrder)).source == FromKv
  {
    var r := Resolve(catalog, candidates, stored);
    ResolvedIsPermutation(catalog, candidates, stored);
    PermuteSameElems(r.ordered, candidates);
    forall w | w in r.ordered ensures w in candidates {
      assert w in Elems(r.ordered);
    }
    TrimmedAgain(r, catalog, candidates, stored);
    SourceIsKvIff(catalog, candidates, Some(r.fullOrder));
  }

  lemma TrimmedAgain(r: Resolved, catalog: seq<string>, candidates: seq<string>, stored: Option<string>)
    requires r == Resolve(catalog, candidates, stored) && NoDup(candidates) && candidates != [] && r.ordered != []
    requires forall w :: w in r.ordered ==> w != "" && Trimmed(w) && ',' !in w
    ensures ReadRolloutOrder(Some(r.fullOrder)).Some?
    ensures Trims(Split(ReadRolloutOrder(Some(r.fullOrder)).value, ',')) == r.ordered
  {
    SourceIsKvIff(catalog, candidates, stored);
    if r.source == FromKv {
      TrimSpaceTrims(stored.value);
      TrimSpaceOfTrimmed(r.fullOrder);
    } else {
      JoinReads(r.ordered);
    }
  }

  lemma {:induction false} JoinReads(ordered: seq<string>)
    requires ordered != [] && forall w :: w in ordered ==> w != "" && Trimmed(w) && ',' !in w
    ensures ReadRolloutOrder(Some(Join(ordered, ","))) == Some(Join(ordered, ","))
    ensures Trims(Split(Join(ordered, ","), ',')) == ordered
  {
    JoinIsTrimmed(ordered);
    TrimSpaceOfTrimmed(Join(ordered, ","));
    SplitOfJoin(ordered, ',');
    TrimsOfTrimmed(ordered);
  }

  lemma {:induction false} JoinIsTrimmed(parts: seq<string>)
    requires parts != [] && forall p :: p in parts ==> p != "" && Trimmed(p)
    ensures Join(parts, ",") != "" && Trimmed(Join(parts, ","))
  {
    assert parts[0] in parts;
    if |parts| > 1 {
      assert forall p :: p in parts[1..] ==> p in parts;
      JoinIsTrimmed(parts[1..]);
      var tail := Join(parts[1..], ",");
      assert Join(parts, ",") == parts[0] + "," + tail;
    }
  }
}
