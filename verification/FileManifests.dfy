/** File manifests of a staged tree, their difference, and the paths of it that a set of globs selects. */
module FileManifests {
  import opened Seqs
  import opened Text

  /** Path to content digest. */
  type Manifest = map<string, string>

  /** The path was added, removed or given other content. */
  predicate Differs(previous: Manifest, current: Manifest, path: string) {
    || (path in current && (path !in previous || previous[path] != current[path]))
    || (path in previous && path !in current)
  }

  /** A sorted list of exactly the paths that differ, each once. */
  ghost predicate ListsChanges(changed: seq<string>, previous: Manifest, current: Manifest) {
    && NoDup(changed) && Sorted(changed)
    && forall path :: path in changed <==> Differs(previous, current, path)
  }

  method DiffFileManifests(previous: Manifest, current: Manifest) returns (changed: seq<string>)
    ensures ListsChanges(changed, previous, current)
    ensures changed == [] <==> previous == current
  {
    var listed: seq<string> := [];
    var seen: set<string> := {};
    var left := current.Keys;
    while left != {}
      invariant left <= current.Keys && NoDup(listed) && seen == Elems(listed)
      invariant forall path :: path in listed <==>
        path in current && path !in left && (path !in previous || previous[path] != current[path])
      decreases left
    {
      var path :| path in left;
      left := left - {path};
      if path !in previous || previous[path] != current[path] {
        assert path !in listed;
        listed := listed + [path];
        seen := seen + {path};
      }
    }
    left := previous.Keys;
    while left != {}
      invariant left <= previous.Keys && NoDup(listed)
      invariant forall path :: path in listed <==>
        Differs(previous, current, path) && !(path in left && path !in current)
      decreases left
    {
      var path :| path in left;
      left := left - {path};
      if path !in current && path !in seen {
        listed := listed + [path];
      }
    }
    changed := SortStrings(listed);
    SortStringsSorts(listed);
    PermuteSameElems(changed, listed);
    forall path ensures path in changed <==> path in listed {
      assert path in changed <==> path in Elems(changed);
      assert path in listed <==> path in Elems(listed);
    }
    SortKeepsNoDup(changed, listed);
    if changed == [] {
      NothingDiffers(previous, current);
    } else {
      assert Differs(previous, current, changed[0]);
    }
  }

  lemma SortKeepsNoDup(a: seq<string>, b: seq<string>)
    requires Permutes(a, b) && NoDup(b)
    ensures NoDup(a)
  {
    forall x | x in a ensures multiset(a)[x] <= 1 {
      NoDupCount(b, x);
    }
    NoDupFromCount(a);
  }

  lemma NothingDiffers(previous: Manifest, current: Manifest)
    requires forall path :: !Differs(previous, current, path)
    ensures previous == current
  {
    assert forall path :: path in previous ==> path in current by {
      forall path | path in previous ensures path in current {
        assert !Differs(previous, current, path);
      }
    }
    forall path | path in current ensures path in previous && previous[path] == current[path] {
      assert !Differs(previous, current, path);
    }
  }

  /** The order the maps were walked in does not show: the list of changes is determined by the manifests. */
  lemma {:induction false} ChangesAreUnique(a: seq<string>, b: seq<string>, previous: Manifest, current: Manifest)
    requires ListsChanges(a, previous, current) && ListsChanges(b, previous, current)
    ensures a == b
  {
    SortedListIsUnique(a, b);
  }

  /** The one sorted list of a set of paths. */
  ghost function SortedList(paths: set<string>): (s: seq<string>)
    ensures NoDup(s) && Sorted(s) && forall x :: x in s <==> x in paths
  {
    if paths == {} then []
    else
      var x :| x in paths;
      var rest := SortedList(paths - {x});
      InsertKeeps(x, rest);
      Insert(x, rest)
  }

  lemma {:induction false} InsertKeeps(x: string, s: seq<string>)
    requires NoDup(s) && Sorted(s) && x !in s
    ensures NoDup(Insert(x, s)) && Sorted(Insert(x, s)) && forall y :: y in Insert(x, s) <==> y == x || y in s
  {
    InsertSorts(x, s);
    assert multiset(s + [x]) == multiset(s) + multiset{x};
    PermuteSameElems(Insert(x, s), s + [x]);
    SortKeepsNoDup(Insert(x, s), s + [x]);
    forall y ensures y in Insert(x, s) <==> y == x || y in s {
      assert y in Insert(x, s) <==> y in Elems(Insert(x, s));
      assert y in s + [x] <==> y in Elems(s + [x]);
    }
  }

  lemma {:induction false} SortedListIsUnique(a: seq<string>, b: seq<string>)
    requires NoDup(a) && Sorted(a) && NoDup(b) && Sorted(b)
    requires forall x :: x in a <==> x in b
    ensures a == b
    decreases |a|
  {
    assert b != [] ==> b[0] in b;
    if a != [] {
      assert a[0] in a;
      assert a[0] == b[0] by {
        var i :| 0 <= i < |b| && b[i] == a[0];
        var j :| 0 <= j < |a| && a[j] == b[0];
        BeforeIsStrict(a[0], b[0]);
      }
      var ra, rb := a[1..], b[1..];
      assert a == [a[0]] + ra && b == [b[0]] + rb;
      forall x ensures x in ra <==> x in rb {
        if x in ra {
          var i :| 0 <= i < |ra| && ra[i] == x;
          assert a[i + 1] == x && x != a[0] && x in a && x in b;
        }
        if x in rb {
          var i :| 0 <= i < |rb| && rb[i] == x;
          assert b[i + 1] == x && x != b[0] && x in b && x in a;
        }
      }
      SortedListIsUnique(ra, rb);
    }
  }

  /* ---- the aggregate hash ---- */

  /** The files' digests in path order: all that the aggregate hash of a tree is taken over. */
  ghost function Digests(files: Manifest): seq<string> {
    var paths := SortedList(files.Keys);
    seq(|paths|, i requires 0 <= i < |paths| => var p := paths[i]; assert p in paths; files[p])
  }

  predicate AllOfLength(parts: seq<string>, n: nat) {
    forall i :: 0 <= i < |parts| ==> |parts[i]| == n
  }

  /** Digests of one length can be told apart in their concatenation. */
  lemma {:induction false} JoinedDigests(a: seq<string>, b: seq<string>, n: nat)
    requires n > 0 && AllOfLength(a, n) && AllOfLength(b, n)
    ensures Join(a, "") == Join(b, "") <==> a == b
  {
    JoinHead(a);
    JoinHead(b);
    if a != [] && b != [] {
      JoinedDigests(a[1..], b[1..], n);
      var whole := Join(a, "");
      assert whole == a[0] + Join(a[1..], "") && whole[..n] == a[0] && whole[n..] == Join(a[1..], "");
      if Join(b, "") == whole {
        assert whole == b[0] + Join(b[1..], "") && whole[..n] == b[0] && whole[n..] == Join(b[1..], "");
        assert a == [a[0]] + a[1..] && b == [b[0]] + b[1..];
      }
    }
  }

  lemma {:induction false} JoinHead(parts: seq<string>)
    ensures parts != [] ==> Join(parts, "") == parts[0] + Join(parts[1..], "")
  {
  }

  /* ---- globs ---- */

  /** Whether a glob matches a path; the glob language is not part of this model. */
  type Matcher = (string, string) -> bool

  predicate Selected(matcher: Matcher, globs: seq<string>, path: string) {
    exists g :: g in globs && matcher(g, path)
  }

  method MatchAny(matcher: Matcher, globs: seq<string>, paths: seq<string>) returns (matched: seq<string>)
    ensures NoDup(matched) && forall path :: path in matched <==> path in paths && Selected(matcher, globs, path)
    ensures Sorted(paths) ==> Sorted(matched)
  {
    matched := [];
    if globs == [] || paths == [] {
      return;
    }
    var seen: set<string> := {};
    ghost var places: seq<nat> := [];
    for i := 0 to |paths|
      invariant NoDup(matched) && seen == Elems(matched)
      invariant forall path :: path in matched <==> path in paths[..i] && Selected(matcher, globs, path)
      invariant |places| == |matched| && forall j :: 0 <= j < |places| ==> places[j] < i && matched[j] == paths[places[j]]
      invariant forall j, k :: 0 <= j < k < |places| ==> places[j] < places[k]
    {
      assert paths[..i + 1] == paths[..i] + [paths[i]];
      var path := paths[i];
      var hit := AnyMatches(matcher, globs, path);
      if hit && path !in seen {
        assert path !in matched;
        seen := seen + {path};
        matched := matched + [path];
        places := places + [i];
      }
    }
    assert paths[..|paths|] == paths;
  }

  method AnyMatches(matcher: Matcher, globs: seq<string>, path: string) returns (hit: bool)
    ensures hit <==> Selected(matcher, globs, path)
  {
    for i := 0 to |globs|
      invariant !Selected(matcher, globs[..i], path)
    {
      assert globs[..i + 1] == globs[..i] + [globs[i]];
      if matcher(globs[i], path) {
        return true;
      }
    }
    assert globs[..|globs|] == globs;
    return false;
  }
}
