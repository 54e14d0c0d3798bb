/** Desired-state reconcile of the Prometheus namespace: after it, exactly the given keys are live. */
module PrometheusCatalog {
  import opened Options
  import opened Seqs
  import opened Text
  import opened KvStore
  import opened KvTheorems
  import opened KvObjects
  import Sets

  const NAMESPACE := "maand/prometheus"

  /** What reconciling does to one key's entry, if it ends up having one. */
  function SyncedEntry(m: Entries, desired: map<string, string>, id: Key): Option<Entry> {
    if id.namespace == NAMESPACE && id.name in desired then
      Some(PutEntry(m, id, TrimSpace(desired[id.name]), 0)[id])
    else if id !in m then None
    else if id.namespace == NAMESPACE && !m[id].deleted then Some(Tombstone(m[id]))
    else Some(m[id])
  }

  ghost predicate Synced(m: Entries, desired: map<string, string>, next: Entries) {
    forall id ::
      && (id in next <==> SyncedEntry(m, desired, id).Some?)
      && (id in next ==> Some(next[id]) == SyncedEntry(m, desired, id))
  }

  /** After a reconcile the namespace shows exactly the desired keys, with trimmed values. */
  lemma SyncedShowsDesired(m: Entries, desired: map<string, string>, next: Entries, name: string)
    requires Synced(m, desired, next)
    ensures var id := Key(NAMESPACE, name);
      Answer(next, id) == if name in desired then Some(Item(TrimSpace(desired[name]), 0)) else None
  {
  }

  lemma SyncedLeavesOthers(m: Entries, desired: map<string, string>, next: Entries, id: Key)
    requires Synced(m, desired, next) && id.namespace != NAMESPACE
    ensures (id in next <==> id in m) && (id in m ==> next[id] == m[id])
  {
  }

  /** Reconciling again changes nothing at all: no version is bumped the second time. */
  lemma SyncTwiceChangesNothing(m: Entries, desired: map<string, string>, once: Entries, twice: Entries)
    requires Synced(m, desired, once) && Synced(once, desired, twice)
    ensures twice == once
  {
  }

  /** The puts for the keys in `done` have been made on `was`. */
  ghost predicate PartlyPut(was: Entries, desired: map<string, string>, done: set<string>, m: Entries)
    requires done <= desired.Keys
  {
    && (forall id :: id in m <==> id in was || (id.namespace == NAMESPACE && id.name in done))
    && (forall id :: id in m && id.namespace == NAMESPACE && id.name in done ==>
          m[id] == PutEntry(was, id, TrimSpace(desired[id.name]), 0)[id])
    && (forall id :: id in m && !(id.namespace == NAMESPACE && id.name in done) ==> m[id] == was[id])
  }

  /** The deletes for the names in `done` have been made on `put`. */
  ghost predicate PartlyDropped(put: Entries, done: set<string>, m: Entries) {
    && m.Keys == put.Keys
    && (forall id :: id in m ==>
          m[id] == if id.namespace == NAMESPACE && id.name in done then Tombstone(put[id]) else put[id])
  }

  lemma PutStep(was: Entries, desired: map<string, string>, done: set<string>, m: Entries, key: string)
    requires done <= desired.Keys && key in desired && key !in done && PartlyPut(was, desired, done, m)
    ensures PartlyPut(was, desired, done + {key}, PutEntry(m, Key(NAMESPACE, key), TrimSpace(desired[key]), 0))
  {
    var id := Key(NAMESPACE, key);
    assert id in m <==> id in was;
    assert id in m ==> m[id] == was[id];
  }

  lemma DropStep(put: Entries, done: set<string>, m: Entries, key: string)
    requires key !in done && Key(NAMESPACE, key) in m && PartlyDropped(put, done, m)
    ensures PartlyDropped(put, done + {key}, DeleteEntry(m, Key(NAMESPACE, key)))
    ensures DeleteOutcome(m, Key(NAMESPACE, key)) == Deleted
  {
  }

  lemma PutThenDropIsSynced(was: Entries, desired: map<string, string>, put: Entries, stale: set<string>, m: Entries)
    requires PartlyPut(was, desired, desired.Keys, put) && PartlyDropped(put, stale, m)
    requires forall k :: k in stale <==> k in LiveKeys(put, NAMESPACE) && k !in desired
    ensures Synced(was, desired, m)
  {
    forall id
      ensures id in m <==> SyncedEntry(was, desired, id).Some?
      ensures id in m ==> Some(m[id]) == SyncedEntry(was, desired, id)
    {
      assert id in m <==> id in put;
      if id in put && id.namespace == NAMESPACE {
        LiveKeysSpec(put, id);
      }
    }
  }

  lemma LiveKeysSpec(m: Entries, id: Key)
    ensures id.name in LiveKeys(m, id.namespace) <==> id in m && !m[id].deleted
  {
  }

  method SyncPrometheusKV(store: Store, desired: map<string, string>) returns (ok: bool)
    requires store.Valid()
    modifies store
    ensures store.Valid() && ok && Synced(old(store.contents), desired, store.contents)
  {
    ghost var was := store.contents;
    var present := PutDesired(store, desired);
    ghost var put := store.contents;
    var existing := store.GetKeys(NAMESPACE);
    var stale := Sets.Difference(existing, present);
    ok := DropStale(store, stale);
    PutThenDropIsSynced(was, desired, put, Elems(stale), store.contents);
  }

  method DropStale(store: Store, stale: seq<string>) returns (ok: bool)
    requires store.Valid() && NoDup(stale) && Elems(stale) <= LiveKeys(store.contents, NAMESPACE)
    modifies store
    ensures store.Valid() && ok && PartlyDropped(old(store.contents), Elems(stale), store.contents)
  {
    ghost var put := store.contents;
    for i := 0 to |stale|
      invariant store.Valid() && PartlyDropped(put, Elems(stale[..i]), store.contents)
    {
      ghost var id := Key(NAMESPACE, stale[i]);
      assert stale[i] in Elems(stale);
      LiveKeysSpec(put, id);
      assert Elems(stale[..i + 1]) == Elems(stale[..i]) + {stale[i]} by {
        assert stale[..i + 1] == stale[..i] + [stale[i]];
      }
      DropStep(put, Elems(stale[..i]), store.contents, stale[i]);
      var result := store.Delete(NAMESPACE, stale[i]);
      if result != Deleted {
        return false;
      }
    }
    assert stale[..|stale|] == stale;
    return true;
  }

  method PutDesired(store: Store, desired: map<string, string>) returns (present: seq<string>)
    requires store.Valid()
    modifies store
    ensures store.Valid() && NoDup(present) && Elems(present) == desired.Keys
    ensures PartlyPut(old(store.contents), desired, desired.Keys, store.contents)
  {
    present := [];
    ghost var was := store.contents;
    var left := desired.Keys;
    while left != {}
      invariant store.Valid() && left <= desired.Keys
      invariant NoDup(present) && Elems(present) == desired.Keys - left
      invariant PartlyPut(was, desired, desired.Keys - left, store.contents)
      decreases left
    {
      var key :| key in left;
      PutStep(was, desired, desired.Keys - left, store.contents, key);
      store.Put(NAMESPACE, key, desired[key], 0);
      assert desired.Keys - (left - {key}) == desired.Keys - left + {key};
      assert key !in Elems(present);
      assert Elems(present + [key]) == Elems(present) + {key};
      present := present + [key];
      left := left - {key};
    }
  }
}
