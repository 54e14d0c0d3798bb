/** The store object with its nested maps, and the database table behind it, updated in place. */
module KvObjects {
  import opened Options
  import opened Seqs
  import opened Text
  import opened KvStore
  import opened KvTheorems

  type Namespaces = map<string, map<string, Entry>>

  /** The nested maps `m` hold exactly the entries of `contents`. */
  ghost predicate Holds(m: Namespaces, contents: Entries) {
    && (forall id :: id in contents <==> id.namespace in m && id.name in m[id.namespace])
    && (forall id :: id in contents ==> contents[id] == m[id.namespace][id.name])
  }

  lemma HoldsUpdate(m: Namespaces, contents: Entries, id: Key, e: Entry)
    requires Holds(m, contents)
    ensures var ns := if id.namespace in m then m[id.namespace] else map[];
      Holds(m[id.namespace := ns[id.name := e]], contents[id := e])
  {
  }

  /** How far a persist has come: `done` entries are clean, and their rows, in `order`, end the log. */
  ghost predicate Persisting(s: Session, contents: Entries, log: Log, order: seq<Key>, done: set<Key>, now: int) {
    && contents.Keys == s.store.Keys
    && (forall id :: id in contents ==>
          contents[id] == if id in done then CleanEntry(s.store[id], now) else s.store[id])
    && NoDup(order)
    && (forall id :: id in order <==> id in done && id in s.store && s.store[id].changed)
    && log == s.log + NewRows(s.store, order, now)
  }

  lemma PersistingStarts(s: Session, now: int)
    ensures Persisting(s, s.store, s.log, [], {}, now)
  {
  }

  /** A clean entry needs no row; a changed one gets the next. */
  lemma PersistingSkips(
    s: Session, contents: Entries, log: Log, order: seq<Key>, done: set<Key>, now: int, id: Key)
    requires Persisting(s, contents, log, order, done, now) && id in contents && !contents[id].changed
    ensures Persisting(s, contents, log, order, done + {id}, now)
  {
  }

  lemma PersistingWrites(
    s: Session, contents: Entries, log: Log, order: seq<Key>, done: set<Key>, now: int, id: Key)
    requires Persisting(s, contents, log, order, done, now) && id in contents && contents[id].changed
    ensures Persisting(
      s, contents[id := contents[id].(changed := false, modified := now)], log + [ToRow(id, contents[id], now)],
      order + [id], done + {id}, now)
  {
  }

  lemma PersistingEnds(s: Session, contents: Entries, log: Log, order: seq<Key>, done: set<Key>, now: int)
    requires Persisting(s, contents, log, order, done, now) && s.store.Keys <= done
    ensures Legal(s, Persist(now, order)) && Session(contents, log) == Apply(s, Persist(now, order))
  {
  }

  /** A namespace purged but for the names still to do. */
  function PurgedExcept(m: Entries, namespace: string, left: set<string>): Entries {
    map id | id in m ::
      if id.namespace == namespace && id.name !in left && !m[id].deleted then Tombstone(m[id]) else m[id]
  }

  lemma PurgingStarts(m: Entries, namespace: string, left: set<string>)
    requires forall id :: id in m && id.namespace == namespace ==> id.name in left
    ensures PurgedExcept(m, namespace, left) == m
  {
  }

  lemma PurgingEnds(m: Entries, namespace: string)
    ensures PurgedExcept(m, namespace, {}) == PurgeNamespaceEntries(m, namespace)
  {
  }

  lemma PurgingStep(m: Entries, namespace: string, left: set<string>, key: string)
    requires key in left && Key(namespace, key) in m
    ensures var id := Key(namespace, key);
      && PurgedExcept(m, namespace, left)[id] == m[id]
      && PurgedExcept(m, namespace, left - {key})
      == (if m[id].deleted then PurgedExcept(m, namespace, left)
          else PurgedExcept(m, namespace, left)[id := Tombstone(m[id])])
  {
  }

  /** The `key_value` table. */
  class Database {
    var keyValue: Log

    constructor (rows: Log)
      ensures keyValue == rows
    {
      keyValue := rows;
    }

    method Insert(row: Row)
      modifies this
      ensures keyValue == old(keyValue) + [row]
    {
      keyValue := keyValue + [row];
    }

    /** One DELETE statement: its condition is evaluated against the table as it was. */
    method PurgeStaleVersions(now: int, retainDays: int)
      modifies this
      ensures keyValue == Purge(old(keyValue), Cutoff(now, retainDays))
      ensures keyValue == Purge(old(keyValue), if retainDays < 0 then now else now - 86_400 * retainDays)
    {
      var days := retainDays;
      if days < 0 {
        days := 0;
      }
      var cutoff := now - days * SECONDS_PER_DAY;
      var table, left := keyValue, [];
      for i := 0 to |table|
        invariant left == KeptRows(table[..i], table, cutoff)
      {
        assert table[..i + 1][..i] == table[..i];
        if Kept(table, cutoff, table[i]) {
          left := left + [table[i]];
        }
      }
      assert table[..|table|] == table;
      keyValue := left;
    }
  }

  class Store {
    var namespaces: Namespaces
    /** The same entries, keyed by namespace and name together. */
    ghost var contents: Entries

    /** A namespace map is only ever made to receive a key. */
    ghost predicate Valid()
      reads this
    {
      Holds(namespaces, contents) && forall n :: n in namespaces ==> namespaces[n] != map[]
    }

    constructor ()
      ensures Valid() && contents == map[]
    {
      namespaces := map[];
      contents := map[];
    }

    lemma NamespaceIffKey(n: string)
      requires Valid()
      ensures n in namespaces <==> HasNamespace(contents, n)
    {
      if n in namespaces {
        var k :| k in namespaces[n];
        assert Key(n, k) in contents;
      }
    }

    method Assign(namespace: string, key: string, e: Entry)
      requires Valid()
      modifies this
      ensures Valid() && contents == old(contents)[Key(namespace, key) := e]
    {
      HoldsUpdate(namespaces, contents, Key(namespace, key), e);
      var ns := if namespace in namespaces then namespaces[namespace] else map[];
      namespaces := namespaces[namespace := ns[key := e]];
      contents := contents[Key(namespace, key) := e];
    }

    /** The names in one namespace map, for a traversal; none if the map does not exist. */
    method Names(namespace: string) returns (names: set<string>)
      requires Valid()
      ensures forall k :: k in names <==> Key(namespace, k) in contents
    {
      if namespace !in namespaces {
        forall k ensures Key(namespace, k) !in contents {
        }
        return {};
      }
      names := namespaces[namespace].Keys;
      forall k ensures k in names <==> Key(namespace, k) in contents {
        assert Key(namespace, k).name == k;
      }
    }

    method Spaces() returns (spaces: set<string>)
      requires Valid()
      ensures forall id :: id in contents ==> id.namespace in spaces
    {
      spaces := namespaces.Keys;
    }

    method EntryAt(namespace: string, key: string) returns (e: Entry)
      requires Valid() && Key(namespace, key) in contents
      ensures e == contents[Key(namespace, key)]
    {
      e := namespaces[namespace][key];
    }

    method Put(namespace: string, key: string, value: string, ttl: int)
      requires Valid()
      modifies this
      ensures Valid() && contents == PutEntry(old(contents), Key(namespace, key), TrimSpace(value), ttl)
    {
      PutValue(namespace, key, value, ttl, true);
    }

    method PutValue(namespace: string, key: string, value: string, ttl: int, trimValue: bool)
      requires Valid()
      modifies this
      ensures Valid()
      ensures contents == PutEntry(old(contents), Key(namespace, key), if trimValue then TrimSpace(value) else value, ttl)
    {
      var stored := value;
      if trimValue {
        stored := TrimSpace(value);
      }
      assert Key(namespace, key) in contents <==> namespace in namespaces && key in namespaces[namespace];
      if namespace !in namespaces || key !in namespaces[namespace] {
        Assign(namespace, key, Entry(stored, 1, ttl, false, true, 0));
        return;
      }
      var entry := namespaces[namespace][key];
      if entry.deleted {
        entry := entry.(value := stored, ttl := ttl, deleted := false);
        entry := entry.(version := entry.version + 1, changed := true);
        Assign(namespace, key, entry);
        return;
      }
      var changed := false;
      if entry.ttl != ttl {
        entry := entry.(ttl := ttl);
        changed := true;
      }
      if entry.value != stored {
        entry := entry.(value := stored);
        changed := true;
      }
      if changed {
        entry := entry.(version := entry.version + 1, changed := true);
        Assign(namespace, key, entry);
      }
    }

    method Delete(namespace: string, key: string) returns (result: DeleteResult)
      requires Valid()
      modifies this
      ensures Valid() && result == DeleteOutcome(old(contents), Key(namespace, key))
      ensures contents == DeleteEntry(old(contents), Key(namespace, key))
    {
      NamespaceIffKey(namespace);
      assert Key(namespace, key) in contents <==> namespace in namespaces && key in namespaces[namespace];
      if namespace !in namespaces {
        return NamespaceNotFound;
      }
      if key !in namespaces[namespace] {
        return NotFound;
      }
      var entry := namespaces[namespace][key];
      entry := entry.(deleted := true, changed := true);
      entry := entry.(version := entry.version + 1);
      Assign(namespace, key, entry);
      return Deleted;
    }

    method Get(namespace: string, key: string) returns (found: Option<Entry>)
      requires Valid()
      ensures var id := Key(namespace, key);
        if id in Visible(contents) then found == Some(contents[id]) else found == None
    {
      assert Key(namespace, key) in contents <==> namespace in namespaces && key in namespaces[namespace];
      if namespace !in namespaces || key !in namespaces[namespace] || namespaces[namespace][key].deleted {
        return None;
      }
      return Some(namespaces[namespace][key]);
    }

    method GetKeys(namespace: string) returns (keys: seq<string>)
      requires Valid()
      ensures NoDup(keys) && Elems(keys) == LiveKeys(contents, namespace)
    {
      keys := [];
      var left := Names(namespace);
      ghost var all := left;
      while left != {}
        invariant left <= all && NoDup(keys)
        invariant forall k :: k in keys <==> k in all - left && !contents[Key(namespace, k)].deleted
        decreases left
      {
        var key :| key in left;
        left := left - {key};
        var entry := EntryAt(namespace, key);
        if !entry.deleted {
          keys := keys + [key];
        }
      }
      forall k ensures k in Elems(keys) <==> k in LiveKeys(contents, namespace) {
        assert k in all <==> Key(namespace, k) in contents;
      }
    }

    method PurgeNamespace(namespace: string)
      requires Valid()
      modifies this
      ensures Valid() && contents == PurgeNamespaceEntries(old(contents), namespace)
    {
      var left := Names(namespace);
      ghost var m := contents;
      PurgingStarts(m, namespace, left);
      while left != {}
        invariant Valid() && contents == PurgedExcept(m, namespace, left)
        invariant forall k :: k in left ==> Key(namespace, k) in contents
        decreases left
      {
        var key :| key in left;
        PurgingStep(m, namespace, left, key);
        left := left - {key};
        var entry := EntryAt(namespace, key);
        if !entry.deleted {
          entry := entry.(deleted := true, changed := true);
          entry := entry.(version := entry.version + 1);
          assert entry == Tombstone(m[Key(namespace, key)]);
          Assign(namespace, key, entry);
        }
      }
      PurgingEnds(m, namespace);
    }

    method HasPendingChanges() returns (pending: bool)
      requires Valid()
      ensures pending <==> ChangedKeys(contents) != {}
    {
      var spaces := Spaces();
      while spaces != {}
        invariant forall id :: id in ChangedKeys(contents) ==> id.namespace in spaces
        decreases spaces
      {
        var namespace :| namespace in spaces;
        var left := Names(namespace);
        while left != {}
          invariant forall k :: k in left ==> Key(namespace, k) in contents
          invariant forall id :: id in ChangedKeys(contents) && id.namespace == namespace ==> id.name in left
          decreases left
        {
          var key :| key in left;
          left := left - {key};
          var entry := EntryAt(namespace, key);
          if entry.changed {
            assert Key(namespace, key) in ChangedKeys(contents);
            return true;
          }
        }
        spaces := spaces - {namespace};
      }
      return false;
    }

    /** Writes every changed entry as a new row, in whatever order the maps are traversed. */
    method PersistToTransaction(db: Database, now: int) returns (ghost order: seq<Key>)
      requires Valid()
      modifies this, db
      ensures Valid() && Legal(Session(old(contents), old(db.keyValue)), Persist(now, order))
      ensures Session(contents, db.keyValue) ==
        Apply(Session(old(contents), old(db.keyValue)), Persist(now, order))
    {
      ghost var s := Session(contents, db.keyValue);
      order := [];
      ghost var done: set<Key> := {};
      PersistingStarts(s, now);
      var spaces := Spaces();
      while spaces != {}
        invariant Valid() && Persisting(s, contents, db.keyValue, order, done, now)
        invariant forall id :: id in s.store && id !in done ==> id.namespace in spaces
        decreases spaces
      {
        var namespace :| namespace in spaces;
        order, done := PersistNamespace(db, namespace, now, s, order, done);
        spaces := spaces - {namespace};
      }
      PersistingEnds(s, contents, db.keyValue, order, done, now);
    }

    method PersistNamespace(db: Database, namespace: string, now: int,
                            ghost s: Session, ghost order: seq<Key>, ghost done: set<Key>)
      returns (ghost order': seq<Key>, ghost done': set<Key>)
      requires Valid() && Persisting(s, contents, db.keyValue, order, done, now)
      modifies this, db
      ensures Valid() && Persisting(s, contents, db.keyValue, order', done', now)
      ensures done <= done' && forall id :: id in s.store && id.namespace == namespace ==> id in done'
    {
      order', done' := order, done;
      var left := Names(namespace);
      while left != {}
        invariant Valid() && Persisting(s, contents, db.keyValue, order', done', now) && done <= done'
        invariant forall k :: k in left ==> Key(namespace, k) in s.store
        invariant forall id :: id in s.store && id.namespace == namespace ==> id in done' || id.name in left
        decreases left
      {
        var key :| key in left;
        left := left - {key};
        order', done' := PersistEntry(db, namespace, key, now, s, order', done');
      }
    }

    method PersistEntry(db: Database, namespace: string, key: string, now: int,
                        ghost s: Session, ghost order: seq<Key>, ghost done: set<Key>)
      returns (ghost order': seq<Key>, ghost done': set<Key>)
      requires Valid() && Key(namespace, key) in contents
      requires Persisting(s, contents, db.keyValue, order, done, now)
      modifies this, db
      ensures Valid() && Persisting(s, contents, db.keyValue, order', done', now)
      ensures done' == done + {Key(namespace, key)}
    {
      ghost var id := Key(namespace, key);
      order', done' := order, done + {id};
      var entry := EntryAt(namespace, key);
      if entry.changed {
        PersistingWrites(s, contents, db.keyValue, order, done, now, id);
        order' := order + [id];
        db.Insert(Row(Key(namespace, key), entry.value, entry.version, entry.ttl, now, entry.deleted));
        Assign(namespace, key, entry.(changed := false, modified := now));
      } else {
        PersistingSkips(s, contents, db.keyValue, order, done, now, id);
      }
    }

    /** The deploy checkpoint: nothing is written when nothing changed. */
    method PersistToSessionTransaction(db: Database, now: int) returns (ghost order: seq<Key>)
      requires Valid()
      modifies this, db
      ensures Valid() && Legal(Session(old(contents), old(db.keyValue)), Persist(now, order))
      ensures Session(contents, db.keyValue) ==
        Apply(Session(old(contents), old(db.keyValue)), Persist(now, order))
    {
      var pending := HasPendingChanges();
      if !pending {
        order := [];
        NothingToClean(contents, now);
        assert db.keyValue + NewRows(contents, [], now) == db.keyValue;
        return;
      }
      order := PersistToTransaction(db, now);
    }
  }

  lemma NothingToClean(m: Entries, now: int)
    requires ChangedKeys(m) == {}
    ensures Clean(m, now) == m
  {
    forall id | id in m ensures !m[id].changed {
      assert id !in ChangedKeys(m);
    }
  }

  /** Hydrates a store with the latest row of every key. */
  method LoadFromTransaction(db: Database) returns (store: Store)
    requires Unique(db.keyValue)
    ensures fresh(store) && store.Valid() && store.contents == Loaded(db.keyValue)
  {
    store := new Store();
    var log := db.keyValue;
    ghost var loaded := Loaded(log);
    for i := 0 to |log|
      invariant fresh(store) && store.Valid() && db.keyValue == log
      invariant forall id :: id in store.contents ==> id in loaded && store.contents[id] == loaded[id]
      invariant forall j :: 0 <= j < i && Latest(log, log[j].id) == Some(log[j]) ==> log[j].id in store.contents
    {
      var row := log[i];
      var newest := Latest(log, row.id);
      LatestSpec(log, row.id);
      LoadedSpec(log, row.id);
      if newest.Some? && row.version == newest.value.version {
        SameVersionSameRow(log, row, newest.value);
        store.Assign(row.id.namespace, row.id.name, FromRow(row));
      }
    }
    forall id | id in loaded ensures id in store.contents {
      LoadedSpec(log, id);
      LatestSpec(log, id);
      var j :| 0 <= j < |log| && log[j] == Latest(log, id).value;
    }
    assert store.contents == loaded;
  }
}
