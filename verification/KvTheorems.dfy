/** What holds of every run of the key-value store: coupling to its log, and refinement of a plain map. */
module KvTheorems {
  import opened Options
  import opened Seqs
  import opened Text
  import opened KvStore

  /* ---- coupling ---- */

  /**
    A changed entry is newer than every logged row of its key; an unchanged one is its latest row. Only a
    tombstone whose rows were purged under the store's feet may lack a row; `strict` excludes even that.
   */
  ghost predicate CoupledAt(m: Entries, log: Log, strict: bool, id: Key) {
    match Latest(log, id)
    case Some(row) =>
      && id in m
      && (if m[id].changed then row.version < m[id].version else m[id] == FromRow(row))
    case None =>
      id in m && !m[id].changed ==> !strict && m[id].deleted
  }

  ghost predicate Coupled(s: Session, strict: bool) {
    Unique(s.log) && forall id :: CoupledAt(s.store, s.log, strict, id)
  }

  lemma OpenIsCoupled(log: Log, strict: bool)
    requires Unique(log)
    ensures Coupled(Open(log), strict)
  {
    forall id ensures CoupledAt(Loaded(log), log, strict, id) {
      LoadedSpec(log, id);
    }
  }

  lemma {:induction false} LatestOfAppend(log: Log, rows: Log, id: Key)
    requires forall i, j :: 0 <= i < j < |rows| ==> rows[i].id != rows[j].id
    ensures (forall row :: row in rows ==> row.id != id) ==> Latest(log + rows, id) == Latest(log, id)
    ensures forall row :: row in rows && row.id == id ==>
      (Latest(log, id).Some? ==> Latest(log, id).value.version < row.version) ==> Latest(log + rows, id) == Some(row)
    decreases |rows|
  {
    if rows == [] {
      assert log + rows == log;
    } else {
      var front, last := rows[..|rows| - 1], rows[|rows| - 1];
      LatestOfAppend(log, front, id);
      assert (log + rows)[..|log + rows| - 1] == log + front;
      assert rows == front + [last];
      if last.id == id {
        assert forall row :: row in front ==> row.id != id;
      }
    }
  }

  /** Persisting writes rows newer than the log has for their keys, so no (key, version) repeats. */
  lemma PersistKeepsUnique(s: Session, strict: bool, now: int, order: seq<Key>)
    requires Coupled(s, strict) && Legal(s, Persist(now, order))
    ensures Unique(Apply(s, Persist(now, order)).log)
  {
    assert forall id :: id in order ==> id in Elems(order);
    var rows := NewRows(s.store, order, now);
    forall i, j | 0 <= i < |s.log| && 0 <= j < |rows| && s.log[i].id == rows[j].id
      ensures s.log[i].version != rows[j].version
    {
      var id := order[j];
      assert order[j] in Elems(order);
      LatestSpec(s.log, id);
      assert s.log[i] in s.log;
      assert CoupledAt(s.store, s.log, strict, id);
    }
  }

  lemma PersistKeepsCoupled(s: Session, strict: bool, now: int, order: seq<Key>)
    requires Coupled(s, strict) && Legal(s, Persist(now, order))
    ensures Coupled(Apply(s, Persist(now, order)), strict)
  {
    PersistKeepsUnique(s, strict, now, order);
    assert forall id :: id in order ==> id in Elems(order);
    var rows := NewRows(s.store, order, now);
    var next := Apply(s, Persist(now, order));
    forall id ensures CoupledAt(next.store, next.log, strict, id) {
      assert CoupledAt(s.store, s.log, strict, id);
      LatestOfAppend(s.log, rows, id);
      if id in order {
        var i :| 0 <= i < |order| && order[i] == id;
        assert id in Elems(order);
        assert rows[i] in rows;
      } else {
        assert id !in Elems(order);
        forall row | row in rows ensures row.id != id {
          var i :| 0 <= i < |rows| && rows[i] == row;
          assert order[i] in order;
        }
      }
    }
  }

  /* ---- the purge ---- */

  lemma {:induction false} KeptRowsSpec(part: Log, log: Log, cutoff: int)
    ensures forall row :: row in KeptRows(part, log, cutoff) ==> row in part && Kept(log, cutoff, row)
    ensures forall row :: row in part && Kept(log, cutoff, row) ==> row in KeptRows(part, log, cutoff)
    ensures Unique(part) ==> Unique(KeptRows(part, log, cutoff))
  {
    if part != [] {
      var front, last := part[..|part| - 1], part[|part| - 1];
      KeptRowsSpec(front, log, cutoff);
      assert part == front + [last];
      var kept := KeptRows(front, log, cutoff);
      if Unique(part) {
        forall i | 0 <= i < |kept| && kept[i].id == last.id ensures kept[i].version != last.version {
          assert kept[i] in front;
          var j :| 0 <= j < |front| && front[j] == kept[i];
          assert part[j] == kept[i];
        }
      }
    }
  }

  /** Of each key the purge removes either everything, when it ends in an old tombstone, or never the latest row. */
  lemma {:induction false} LatestOfPurge(log: Log, cutoff: int, id: Key)
    requires Unique(log)
    ensures Unique(Purge(log, cutoff))
    ensures var latest := Latest(log, id);
      Latest(Purge(log, cutoff), id) ==
        if latest.Some? && latest.value.deleted && Older(latest.value.created, cutoff) then None else latest
  {
    KeptRowsSpec(log, log, cutoff);
    LatestSpec(log, id);
    LatestSpec(Purge(log, cutoff), id);
    var latest := Latest(log, id);
    if latest.Some? && !(latest.value.deleted && Older(latest.value.created, cutoff)) {
      assert Kept(log, cutoff, latest.value);
      SameVersionSameRow(log, latest.value, Latest(Purge(log, cutoff), id).value);
    }
  }

  lemma SameVersionSameRow(log: Log, a: Row, b: Row)
    requires Unique(log) && a in log && b in log && a.id == b.id && a.version == b.version
    ensures a == b
  {
  }

  lemma PurgeKeepsCoupled(s: Session, strict: bool, cutoff: int)
    requires Coupled(s, strict)
    ensures Coupled(Apply(s, PurgeStale(cutoff)), false)
  {
    forall id ensures CoupledAt(s.store, Purge(s.log, cutoff), false, id) {
      LatestOfPurge(s.log, cutoff, id);
      assert CoupledAt(s.store, s.log, strict, id);
    }
    LatestOfPurge(s.log, cutoff, Key("", ""));
  }

  lemma StoreOpKeepsCoupled(s: Session, strict: bool, op: Op)
    requires Coupled(s, strict) && (op.Put? || op.PutSecret? || op.Delete? || op.PurgeNamespace?)
    ensures Coupled(Apply(s, op), strict)
  {
    var next := Apply(s, op);
    forall id ensures CoupledAt(next.store, next.log, strict, id) {
      assert CoupledAt(s.store, s.log, strict, id);
    }
  }

  /** Every operation keeps store and log coupled; only a purge of history gives up strictness. */
  lemma ApplyKeepsCoupled(s: Session, strict: bool, op: Op)
    requires Coupled(s, strict) && Legal(s, op)
    ensures Coupled(Apply(s, op), strict && !op.PurgeStale?)
  {
    match op
    case Persist(now, order) => PersistKeepsCoupled(s, strict, now, order);
    case Reload => OpenIsCoupled(s.log, strict);
    case PurgeStale(cutoff) => PurgeKeepsCoupled(s, strict, cutoff);
    case _ => StoreOpKeepsCoupled(s, strict, op);
  }

  predicate Purges(ops: seq<Op>) {
    exists op :: op in ops && op.PurgeStale?
  }

  lemma {:induction false} RunKeepsCoupled(s: Session, strict: bool, ops: seq<Op>)
    requires Coupled(s, strict) && LegalRun(s, ops)
    ensures Coupled(Run(s, ops), strict && !Purges(ops))
    decreases |ops|
  {
    if ops != [] {
      ApplyKeepsCoupled(s, strict, ops[0]);
      RunKeepsCoupled(Apply(s, ops[0]), strict && !ops[0].PurgeStale?, ops[1..]);
      assert ops == [ops[0]] + ops[1..];
      assert Purges(ops) <==> ops[0].PurgeStale? || Purges(ops[1..]);
    }
  }

  /**
    After any run over a log with unique versions: an entry waiting to be written is newer than every row of
    its key, and any other entry is the latest row of its key, or is a tombstone whose rows a purge removed.
   */
  lemma {:induction false} EveryRunIsCoupled(log: Log, ops: seq<Op>, id: Key)
    requires Unique(log) && LegalRun(Open(log), ops)
    ensures var s := Run(Open(log), ops);
      && Unique(s.log)
      && (id in s.store && s.store[id].changed ==>
            forall row :: row in s.log && row.id == id ==> row.version < s.store[id].version)
      && (id in s.store && !s.store[id].changed ==>
            if Latest(s.log, id).Some? then s.store[id] == FromRow(Latest(s.log, id).value)
            else s.store[id].deleted && Purges(ops))
  {
    OpenIsCoupled(log, true);
    RunKeepsCoupled(Open(log), true, ops);
    var s := Run(Open(log), ops);
    assert CoupledAt(s.store, s.log, !Purges(ops), id);
    LatestSpec(s.log, id);
  }

  /** Loading after a persist restores the very store that was persisted, if no history was purged in between. */
  lemma {:induction false} LoadAfterPersistRestores(log: Log, ops: seq<Op>, now: int, order: seq<Key>)
    requires Unique(log) && !Purges(ops) && LegalRun(Open(log), ops)
    requires Legal(Run(Open(log), ops), Persist(now, order))
    ensures var s := Run(Open(log), ops);
      Loaded(Apply(s, Persist(now, order)).log) == Clean(s.store, now)
  {
    OpenIsCoupled(log, true);
    RunKeepsCoupled(Open(log), true, ops);
    var s := Run(Open(log), ops);
    PersistKeepsCoupled(s, true, now, order);
    var next := Apply(s, Persist(now, order));
    forall id
      ensures id in Loaded(next.log) <==> id in next.store
      ensures id in Loaded(next.log) ==> Loaded(next.log)[id] == next.store[id]
    {
      assert CoupledAt(next.store, next.log, true, id);
      LoadedSpec(next.log, id);
    }
    assert Loaded(next.log) == next.store;
  }

  /* ---- refinement of a plain map ---- */

  datatype Item = Item(value: string, ttl: int)

  type View = map<Key, Item>

  /** What callers can see: the live keys with their values. */
  function Visible(m: Entries): View {
    map id | id in m && !m[id].deleted :: Item(m[id].value, m[id].ttl)
  }

  /** The specification: a working map, and the map as it was last persisted. */
  datatype Spec = Spec(working: View, saved: View)

  function SpecApply(s: Spec, op: Op): Spec {
    match op
    case Put(id, value, ttl) => s.(working := s.working[id := Item(TrimSpace(value), ttl)])
    case PutSecret(id, encrypted, ttl) => s.(working := s.working[id := Item(encrypted, ttl)])
    case Delete(id) => s.(working := s.working - {id})
    case PurgeNamespace(namespace) => s.(working := map id | id in s.working && id.namespace != namespace :: s.working[id])
    case Persist(_, _) => Spec(s.working, s.working)
    case Reload => Spec(s.saved, s.saved)
    case PurgeStale(_) => s
  }

  function SpecRun(s: Spec, ops: seq<Op>): Spec
    decreases |ops|
  {
    if ops == [] then s else SpecRun(SpecApply(s, ops[0]), ops[1..])
  }

  ghost function Abstract(s: Session): Spec {
    Spec(Visible(s.store), Visible(Loaded(s.log)))
  }

  lemma VisibleSpec(m: Entries, id: Key)
    ensures id in Visible(m) <==> id in m && !m[id].deleted
    ensures id in Visible(m) ==> Visible(m)[id] == Item(m[id].value, m[id].ttl)
  {
  }

  lemma PersistSavesWorking(s: Session, strict: bool, now: int, order: seq<Key>)
    requires Coupled(s, strict) && Legal(s, Persist(now, order))
    ensures var next := Apply(s, Persist(now, order));
      Visible(next.store) == Visible(s.store) && Visible(Loaded(next.log)) == Visible(s.store)
  {
    PersistKeepsCoupled(s, strict, now, order);
    var next := Apply(s, Persist(now, order));
    CleanShowsTheSame(s.store, now);
    CoupledShowsTheSame(next, strict);
  }

  lemma CleanShowsTheSame(m: Entries, now: int)
    ensures Visible(Clean(m, now)) == Visible(m) && forall id :: id in Clean(m, now) ==> !Clean(m, now)[id].changed
  {
  }

  /** A store with nothing pending shows what its log would show a fresh one. */
  lemma CoupledShowsTheSame(s: Session, strict: bool)
    requires Coupled(s, strict) && forall id :: id in s.store ==> !s.store[id].changed
    ensures Visible(Loaded(s.log)) == Visible(s.store)
  {
    forall id
      ensures id in Visible(Loaded(s.log)) <==> id in Visible(s.store)
      ensures id in Visible(s.store) ==> Visible(Loaded(s.log))[id] == Visible(s.store)[id]
    {
      assert CoupledAt(s.store, s.log, strict, id);
      LoadedSpec(s.log, id);
    }
  }

  /** What a fresh store shows does not change when stale history is purged. */
  lemma PurgeHidesNothing(log: Log, cutoff: int)
    requires Unique(log)
    ensures Visible(Loaded(Purge(log, cutoff))) == Visible(Loaded(log))
  {
    forall id
      ensures id in Visible(Loaded(Purge(log, cutoff))) <==> id in Visible(Loaded(log))
      ensures id in Visible(Loaded(log)) ==> Visible(Loaded(Purge(log, cutoff)))[id] == Visible(Loaded(log))[id]
    {
      LatestOfPurge(log, cutoff, id);
      LoadedSpec(log, id);
      LoadedSpec(Purge(log, cutoff), id);
    }
  }

  /** What a row shows: nothing if there is none, or it is a tombstone. */
  function Shown(row: Option<Row>): Option<Item> {
    if row.Some? && !row.value.deleted then Some(Item(row.value.value, row.value.ttl)) else None
  }

  /** The latest row of a key after one call on a store just loaded, once persisted. */
  function NextRow(was: Option<Row>, id: Key, op: Op, now: int): Option<Row> {
    match op
    case Put(put, value, ttl) => if put == id then Written(was, id, TrimSpace(value), ttl, now) else was
    case PutSecret(put, encrypted, ttl) => if put == id then Written(was, id, encrypted, ttl, now) else was
    case Delete(gone) => if gone == id && was.Some? then Some(Buried(was.value, now)) else was
    case PurgeNamespace(namespace) =>
      if namespace == id.namespace && Shown(was).Some? then Some(Buried(was.value, now)) else was
    case _ => was
  }

  /** A new key gets version 1, what shows something else the next version, and what shows the same no row at all. */
  function Written(was: Option<Row>, id: Key, value: string, ttl: int, now: int): Option<Row> {
    if Shown(was) == Some(Item(value, ttl)) then was
    else Some(Row(id, value, if was.Some? then was.value.version + 1 else 1, ttl, now, false))
  }

  function Buried(was: Row, now: int): Row {
    was.(version := was.version + 1, created := now, deleted := true)
  }

  /** One call and a persist: what every key's latest row then is, and that nothing logged before is touched. */
  lemma {:induction false} OneCallOneVersion(log: Log, op: Op, now: int, order: seq<Key>, id: Key)
    requires Unique(log) && (op.Put? || op.PutSecret? || op.Delete? || op.PurgeNamespace?)
    requires Legal(Apply(Open(log), op), Persist(now, order))
    ensures var saved := Apply(Apply(Open(log), op), Persist(now, order)).log;
      log <= saved && Latest(saved, id) == NextRow(Latest(log, id), id, op, now)
  {
    OpenIsCoupled(log, true);
    StoreOpKeepsCoupled(Open(log), true, op);
    OneCallEntry(log, op, now, id);
    PersistedRow(Apply(Open(log), op), now, order, id);
  }

  lemma {:induction false} OneCallEntry(log: Log, op: Op, now: int, id: Key)
    requires op.Put? || op.PutSecret? || op.Delete? || op.PurgeNamespace?
    ensures var store := Apply(Open(log), op).store;
      NextRow(Latest(log, id), id, op, now)
        == if id in store && store[id].changed then Some(ToRow(id, store[id], now)) else Latest(log, id)
  {
    LoadedSpec(log, id);
    LatestSpec(log, id);
  }

  lemma {:induction false} PersistedRow(s: Session, now: int, order: seq<Key>, id: Key)
    requires Coupled(s, true) && Legal(s, Persist(now, order))
    ensures var saved := Apply(s, Persist(now, order)).log;
      Latest(saved, id)
        == if id in s.store && s.store[id].changed then Some(ToRow(id, s.store[id], now)) else Latest(s.log, id)
  {
    assert forall x :: x in order <==> x in Elems(order);
    var rows := NewRows(s.store, order, now);
    assert CoupledAt(s.store, s.log, true, id);
    LatestOfAppend(s.log, rows, id);
    if id in order {
      var i :| 0 <= i < |order| && order[i] == id;
      assert rows[i] in rows;
    } else {
      forall row | row in rows ensures row.id != id {
        var i :| 0 <= i < |rows| && rows[i] == row;
        assert order[i] in order;
      }
    }
  }

  lemma PutShows(m: Entries, id: Key, value: string, ttl: int)
    ensures Visible(PutEntry(m, id, value, ttl)) == Visible(m)[id := Item(value, ttl)]
  {
  }

  lemma DeleteShows(m: Entries, id: Key)
    ensures Visible(DeleteEntry(m, id)) == Visible(m) - {id}
  {
  }

  lemma PurgeNamespaceShows(m: Entries, namespace: string)
    ensures Visible(PurgeNamespaceEntries(m, namespace))
         == map id | id in Visible(m) && id.namespace != namespace :: Visible(m)[id]
  {
  }

  lemma ApplyRefines(s: Session, strict: bool, op: Op)
    requires Coupled(s, strict) && Legal(s, op)
    ensures Abstract(Apply(s, op)) == SpecApply(Abstract(s), op)
  {
    match op
    case Put(id, value, ttl) => PutShows(s.store, id, TrimSpace(value), ttl);
    case PutSecret(id, encrypted, ttl) => PutShows(s.store, id, encrypted, ttl);
    case Delete(id) => DeleteShows(s.store, id);
    case PurgeNamespace(namespace) => PurgeNamespaceShows(s.store, namespace);
    case Persist(now, order) => PersistSavesWorking(s, strict, now, order);
    case Reload =>
    case PurgeStale(cutoff) => PurgeHidesNothing(s.log, cutoff);
  }

  /** Over any run the versioned store is a plain map, its log is that map as last persisted. */
  lemma {:induction false} RunRefines(s: Session, strict: bool, ops: seq<Op>)
    requires Coupled(s, strict) && LegalRun(s, ops)
    ensures Abstract(Run(s, ops)) == SpecRun(Abstract(s), ops)
    decreases |ops|
  {
    if ops != [] {
      ApplyKeepsCoupled(s, strict, ops[0]);
      ApplyRefines(s, strict, ops[0]);
      RunRefines(Apply(s, ops[0]), strict && !ops[0].PurgeStale?, ops[1..]);
    }
  }

  /* ---- purging is invisible ---- */

  /** The call itself, without the clock and traversal order that two runs need not share. */
  function Call(op: Op): Op {
    if op.Persist? then Persist(0, []) else op
  }

  ghost predicate SameCalls(a: seq<Op>, b: seq<Op>) {
    |a| == |b| && forall i :: 0 <= i < |a| ==> Call(a[i]) == Call(b[i])
  }

  lemma {:induction false} SpecSeesOnlyCalls(s: Spec, a: seq<Op>, b: seq<Op>)
    requires SameCalls(a, b)
    ensures SpecRun(s, a) == SpecRun(s, b)
    decreases |a|
  {
    if a != [] {
      assert Call(a[0]) == Call(b[0]);
      assert SpecApply(s, a[0]) == SpecApply(s, b[0]);
      forall i | 0 <= i < |a[1..]| ensures Call(a[1..][i]) == Call(b[1..][i]) {
        assert Call(a[i + 1]) == Call(b[i + 1]);
      }
      SpecSeesOnlyCalls(SpecApply(s, a[0]), a[1..], b[1..]);
    }
  }

  /** The keys `GetKeys` lists. */
  function LiveKeys(m: Entries, namespace: string): set<string> {
    set id | id in m && id.namespace == namespace && !m[id].deleted :: id.name
  }

  /** What `Get` answers, apart from the version number and time stamp. */
  function Answer(m: Entries, id: Key): Option<Item> {
    if id in m && !m[id].deleted then Some(Item(m[id].value, m[id].ttl)) else None
  }

  /**
    Stores opened on a log and on its purged copy answer every later Get and GetKeys alike, through the same
    calls, including persists, reloads and further purges.
   */
  lemma {:induction false} PurgeIsInvisible(log: Log, cutoff: int, a: seq<Op>, b: seq<Op>, id: Key)
    requires Unique(log) && SameCalls(a, b)
    requires LegalRun(Open(log), a) && LegalRun(Open(Purge(log, cutoff)), b)
    ensures var full, purged := Run(Open(log), a).store, Run(Open(Purge(log, cutoff)), b).store;
      && Answer(full, id) == Answer(purged, id)
      && LiveKeys(full, id.namespace) == LiveKeys(purged, id.namespace)
  {
    LatestOfPurge(log, cutoff, id);
    OpenIsCoupled(log, true);
    OpenIsCoupled(Purge(log, cutoff), true);
    PurgeHidesNothing(log, cutoff);
    RunRefines(Open(log), true, a);
    RunRefines(Open(Purge(log, cutoff)), true, b);
    SpecSeesOnlyCalls(Abstract(Open(log)), a, b);
    var full, purged := Run(Open(log), a).store, Run(Open(Purge(log, cutoff)), b).store;
    assert Visible(full) == Visible(purged);
    VisibleSpec(full, id);
    VisibleSpec(purged, id);
    LiveKeysOfVisible(full, id.namespace);
    LiveKeysOfVisible(purged, id.namespace);
  }

  lemma LiveKeysOfVisible(m: Entries, namespace: string)
    ensures LiveKeys(m, namespace) == set id | id in Visible(m) && id.namespace == namespace :: id.name
  {
  }

  /**
    The one place the purge shows: deleting a key again. On the purged copy the outcome is the same if and only
    if the key still has rows there or never had any, and its namespace is likewise known to both or neither.
   */
  lemma {:induction false} PurgeShowsInDeleteOutcome(log: Log, cutoff: int, id: Key)
    requires Unique(log)
    ensures var full, purged := Loaded(log), Loaded(Purge(log, cutoff)); var latest := Latest(log, id);
      DeleteOutcome(full, id) == DeleteOutcome(purged, id) <==>
        if latest.Some? then !(latest.value.deleted && Older(latest.value.created, cutoff))
        else HasNamespace(full, id.namespace) ==> HasNamespace(purged, id.namespace)
  {
    var full, purged := Loaded(log), Loaded(Purge(log, cutoff));
    LatestOfPurge(log, cutoff, id);
    LoadedSpec(log, id);
    LoadedSpec(Purge(log, cutoff), id);
    if HasNamespace(purged, id.namespace) {
      var other :| other in purged && other.namespace == id.namespace;
      LatestOfPurge(log, cutoff, other);
      LoadedSpec(log, other);
      LoadedSpec(Purge(log, cutoff), other);
    }
  }

  /* ---- and after any calls ---- */

  /** The same calls at the same times; only the order a persist walks the store in may differ. */
  ghost predicate SameTimedCalls(a: seq<Op>, b: seq<Op>) {
    |a| == |b| && forall i :: 0 <= i < |a| ==> Timed(a[i]) == Timed(b[i])
  }

  function Timed(op: Op): Op {
    if op.Persist? then Persist(op.now, []) else op
  }

  /** The keys that a store and a log know and their purged copies do not. */
  datatype Lost = Lost(store: set<Key>, log: set<Key>)

  /** What the purge takes away at first: the old tombstones. */
  ghost function LostAtFirst(log: Log, cutoff: int): set<Key> {
    set id | id in Ids(log) && Latest(log, id).Some? && Latest(log, id).value.deleted
             && Older(Latest(log, id).value.created, cutoff)
  }

  /** What one call on the full session leaves of the difference. */
  ghost function LostAfter(s: Session, lost: Lost, op: Op): Lost {
    match op
    case Put(id, _, _) => lost.(store := lost.store - {id})
    case PutSecret(id, _, _) => lost.(store := lost.store - {id})
    case Persist(_, _) =>
      lost.(log := (lost.log - ChangedKeys(s.store)) + (ChangedKeys(s.store) * lost.store))
    case Reload => lost.(store := lost.log)
    case PurgeStale(cutoff) => lost.(log := lost.log - LostAtFirst(s.log, cutoff))
    case _ => lost
  }

  ghost function LostByRun(s: Session, lost: Lost, ops: seq<Op>): Lost
    requires LegalRun(s, ops)
    decreases |ops|
  {
    if ops == [] then lost else LostByRun(Apply(s, ops[0]), LostAfter(s, lost, ops[0]), ops[1..])
  }

  /** The two entries differ at most in their version and time stamp. */
  predicate AlikeEntries(a: Entry, b: Entry) {
    a.value == b.value && a.ttl == b.ttl && a.deleted == b.deleted && a.changed == b.changed
  }

  /** The two rows differ at most in their version. */
  predicate AlikeRows(a: Row, b: Row) {
    a.value == b.value && a.ttl == b.ttl && a.deleted == b.deleted && a.created == b.created
  }

  /** A lost key is a tombstone on the one side and unknown on the other; any other key is alike on both. */
  ghost predicate StoreAlike(full: Entries, purged: Entries, lost: set<Key>, id: Key) {
    if id in lost then id in full && full[id].deleted && id !in purged
    else (id in full <==> id in purged) && (id in full ==> AlikeEntries(full[id], purged[id]))
  }

  ghost predicate LogAlike(full: Log, purged: Log, lost: set<Key>, id: Key) {
    var a, b := Latest(full, id), Latest(purged, id);
    if id in lost then a.Some? && a.value.deleted && b.None?
    else (a.Some? <==> b.Some?) && (a.Some? ==> AlikeRows(a.value, b.value))
  }

  ghost predicate Alike(full: Session, purged: Session, lost: Lost) {
    && (forall id :: StoreAlike(full.store, purged.store, lost.store, id))
    && (forall id :: LogAlike(full.log, purged.log, lost.log, id))
  }

  lemma {:induction false} LostSpec(log: Log, cutoff: int, id: Key)
    ensures id in LostAtFirst(log, cutoff) <==>
      var latest := Latest(log, id);
      latest.Some? && latest.value.deleted && Older(latest.value.created, cutoff)
  {
    LatestSpec(log, id);
  }

  lemma OpenAlike(log: Log, cutoff: int)
    requires Unique(log)
    ensures var lost := LostAtFirst(log, cutoff); Alike(Open(log), Open(Purge(log, cutoff)), Lost(lost, lost))
  {
    var lost := LostAtFirst(log, cutoff);
    forall id
      ensures StoreAlike(Loaded(log), Loaded(Purge(log, cutoff)), lost, id)
      ensures LogAlike(log, Purge(log, cutoff), lost, id)
    {
      LostSpec(log, cutoff, id);
      LatestOfPurge(log, cutoff, id);
      LoadedSpec(log, id);
      LoadedSpec(Purge(log, cutoff), id);
    }
  }

  lemma {:induction false} PersistLatest(s: Session, now: int, order: seq<Key>, id: Key)
    requires Coupled(s, false) && Legal(s, Persist(now, order))
    ensures var after := Latest(Apply(s, Persist(now, order)).log, id);
      if id in ChangedKeys(s.store) then after == Some(ToRow(id, s.store[id], now)) else after == Latest(s.log, id)
  {
    assert forall id :: id in order <==> id in Elems(order);
    var rows := NewRows(s.store, order, now);
    LatestOfAppend(s.log, rows, id);
    assert CoupledAt(s.store, s.log, false, id);
    if id in order {
      var i :| 0 <= i < |order| && order[i] == id;
      assert rows[i] in rows;
    } else {
      forall row | row in rows ensures row.id != id {
        var i :| 0 <= i < |rows| && rows[i] == row;
        assert order[i] in order;
      }
    }
  }

  lemma PersistAlike(full: Session, purged: Session, lost: Lost, now: int, a: seq<Key>, b: seq<Key>)
    requires Alike(full, purged, lost) && Coupled(full, false) && Coupled(purged, false)
    requires Legal(full, Persist(now, a)) && Legal(purged, Persist(now, b))
    ensures Alike(
      Apply(full, Persist(now, a)), Apply(purged, Persist(now, b)), LostAfter(full, lost, Persist(now, a)))
  {
    var next := LostAfter(full, lost, Persist(now, a));
    forall id
      ensures StoreAlike(Clean(full.store, now), Clean(purged.store, now), next.store, id)
      ensures LogAlike(Apply(full, Persist(now, a)).log, Apply(purged, Persist(now, b)).log, next.log, id)
    {
      assert StoreAlike(full.store, purged.store, lost.store, id) && LogAlike(full.log, purged.log, lost.log, id);
      PersistLatest(full, now, a, id);
      PersistLatest(purged, now, b, id);
      assert CoupledAt(purged.store, purged.log, false, id);
    }
  }

  lemma PurgeAlike(full: Session, purged: Session, lost: Lost, cutoff: int)
    requires Alike(full, purged, lost) && Unique(full.log) && Unique(purged.log)
    ensures Alike(
      Apply(full, PurgeStale(cutoff)), Apply(purged, PurgeStale(cutoff)), LostAfter(full, lost, PurgeStale(cutoff)))
  {
    forall id
      ensures LogAlike(Purge(full.log, cutoff), Purge(purged.log, cutoff), lost.log - LostAtFirst(full.log, cutoff), id)
    {
      assert LogAlike(full.log, purged.log, lost.log, id);
      LostSpec(full.log, cutoff, id);
      LatestOfPurge(full.log, cutoff, id);
      LatestOfPurge(purged.log, cutoff, id);
    }
  }

  lemma ReloadAlike(full: Session, purged: Session, lost: Lost)
    requires Alike(full, purged, lost)
    ensures Alike(Apply(full, Reload), Apply(purged, Reload), LostAfter(full, lost, Reload))
  {
    forall id ensures StoreAlike(Loaded(full.log), Loaded(purged.log), lost.log, id) {
      assert LogAlike(full.log, purged.log, lost.log, id);
      LoadedSpec(full.log, id);
      LoadedSpec(purged.log, id);
    }
  }

  lemma StoreOpAlike(full: Session, purged: Session, lost: Lost, op: Op)
    requires Alike(full, purged, lost) && (op.Put? || op.PutSecret? || op.Delete? || op.PurgeNamespace?)
    ensures Alike(Apply(full, op), Apply(purged, op), LostAfter(full, lost, op))
  {
    var a, b, next := Apply(full, op), Apply(purged, op), LostAfter(full, lost, op);
    forall id ensures StoreAlike(a.store, b.store, next.store, id) {
      assert StoreAlike(full.store, purged.store, lost.store, id);
    }
  }

  lemma ApplyAlike(full: Session, purged: Session, lost: Lost, a: Op, b: Op)
    requires Alike(full, purged, lost) && Coupled(full, false) && Coupled(purged, false)
    requires Timed(a) == Timed(b) && Legal(full, a) && Legal(purged, b)
    ensures Alike(Apply(full, a), Apply(purged, b), LostAfter(full, lost, a))
  {
    match a
    case Persist(now, order) => PersistAlike(full, purged, lost, now, order, b.order);
    case Reload => ReloadAlike(full, purged, lost);
    case PurgeStale(cutoff) => PurgeAlike(full, purged, lost, cutoff);
    case _ => StoreOpAlike(full, purged, lost, a);
  }

  lemma {:induction false} RunAlike(full: Session, purged: Session, lost: Lost, a: seq<Op>, b: seq<Op>)
    requires Alike(full, purged, lost) && Coupled(full, false) && Coupled(purged, false)
    requires SameTimedCalls(a, b) && LegalRun(full, a) && LegalRun(purged, b)
    ensures Alike(Run(full, a), Run(purged, b), LostByRun(full, lost, a))
    decreases |a|
  {
    if a != [] {
      assert Timed(a[0]) == Timed(b[0]);
      ApplyAlike(full, purged, lost, a[0], b[0]);
      ApplyKeepsCoupled(full, false, a[0]);
      ApplyKeepsCoupled(purged, false, b[0]);
      forall i | 0 <= i < |a[1..]| ensures Timed(a[1..][i]) == Timed(b[1..][i]) {
        assert Timed(a[i + 1]) == Timed(b[i + 1]);
      }
      RunAlike(Apply(full, a[0]), Apply(purged, b[0]), LostAfter(full, lost, a[0]), a[1..], b[1..]);
    }
  }

  /**
    After any calls, on a log and on its purged copy at the same times, deleting a key has the same outcome if and
    only if the key is not lost, or, where neither knows it, its namespace has a key left that is not. What is lost
    is told by the first session alone: old tombstones, until put again, purged there too, or never reloaded.
   */
  lemma {:induction false} DeleteOutcomeAfterRunsIff(log: Log, cutoff: int, a: seq<Op>, b: seq<Op>, id: Key)
    requires Unique(log) && SameTimedCalls(a, b)
    requires LegalRun(Open(log), a) && LegalRun(Open(Purge(log, cutoff)), b)
    ensures var lost := LostAtFirst(log, cutoff);
      var gone := LostByRun(Open(log), Lost(lost, lost), a).store;
      var full, purged := Run(Open(log), a).store, Run(Open(Purge(log, cutoff)), b).store;
      && purged.Keys == full.Keys - gone
      && (forall other :: other in gone ==> other in full && full[other].deleted)
      && (DeleteOutcome(full, id) == DeleteOutcome(purged, id) <==>
            if id in full then id !in gone
            else HasNamespace(full, id.namespace) ==>
              exists other :: other in full && other !in gone && other.namespace == id.namespace)
  {
    var lost := LostAtFirst(log, cutoff);
    OpenAlike(log, cutoff);
    LatestOfPurge(log, cutoff, id);
    OpenIsCoupled(log, false);
    OpenIsCoupled(Purge(log, cutoff), false);
    RunAlike(Open(log), Open(Purge(log, cutoff)), Lost(lost, lost), a, b);
    var gone := LostByRun(Open(log), Lost(lost, lost), a).store;
    var full, purged := Run(Open(log), a).store, Run(Open(Purge(log, cutoff)), b).store;
    forall other ensures other in purged <==> other in full && other !in gone {
      assert StoreAlike(full, purged, gone, other);
    }
    forall other | other in gone ensures other in full && full[other].deleted {
      assert StoreAlike(full, purged, gone, other);
    }
  }

  /** Deleting an old tombstone again succeeds before the purge and fails after it. */
  lemma PurgeShowsInDeleteExample()
    ensures var id := Key("ns", "k"); var log := [Row(id, "v", 1, 0, 0, true)];
      && Unique(log)
      && DeleteOutcome(Loaded(log), id) == Deleted
      && DeleteOutcome(Loaded(Purge(log, 1)), id) == NamespaceNotFound
  {
    var id := Key("ns", "k");
    var log := [Row(id, "v", 1, 0, 0, true)];
    assert log[..0] == [];
    assert Latest(log, id) == Some(log[0]);
    forall other ensures other !in Loaded(Purge(log, 1)) {
      LatestOfPurge(log, 1, other);
      LoadedSpec(Purge(log, 1), other);
      LatestSpec(log, other);
    }
    LoadedSpec(log, id);
  }

  /* ---- how much the purge keeps ---- */

  function RowsOf(log: Log, id: Key): Log {
    if log == [] then []
    else
      var before := RowsOf(log[..|log| - 1], id);
      var last := log[|log| - 1];
      if last.id == id then before + [last] else before
  }

  lemma {:induction false} RowsOfSpec(log: Log, id: Key)
    ensures forall row :: row in RowsOf(log, id) <==> row in log && row.id == id
  {
    if log != [] {
      var front, last := log[..|log| - 1], log[|log| - 1];
      RowsOfSpec(front, id);
      assert log == front + [last];
    }
  }

  lemma {:induction false} RowsOfUnique(log: Log, id: Key)
    requires Unique(log)
    ensures Unique(RowsOf(log, id))
  {
    if log != [] {
      var front, last := log[..|log| - 1], log[|log| - 1];
      RowsOfUnique(front, id);
      RowsOfSpec(front, id);
      var rows := RowsOf(front, id);
      forall i | 0 <= i < |rows| && last.id == id ensures rows[i].version != last.version {
        assert rows[i] in rows;
        var j :| 0 <= j < |front| && front[j] == rows[i];
        assert log[j] == rows[i];
      }
    }
  }

  lemma {:induction false} DistinctVersionsFit(rows: Log, low: int, high: int)
    requires forall i, j :: 0 <= i < j < |rows| ==> rows[i].version != rows[j].version
    requires forall row :: row in rows ==> low <= row.version <= high
    requires low <= high + 1
    ensures |rows| <= high - low + 1
    decreases high - low + 1
  {
    forall k | 0 <= k < |rows| ensures low <= rows[k].version <= high {
      assert rows[k] in rows;
    }
    assert |rows| > 0 ==> low <= rows[0].version <= high;
    if low == high + 1 {
    } else if k :| 0 <= k < |rows| && rows[k].version == high {
      var rest := rows[..k] + rows[k + 1..];
      forall row | row in rest ensures low <= row.version <= high - 1 {
        assert row in rows;
      }
      DistinctVersionsFit(rest, low, high - 1);
    } else {
      forall row | row in rows ensures low <= row.version <= high - 1 {
      }
      DistinctVersionsFit(rows, low, high - 1);
    }
  }

  /**
    A live key past the cutoff keeps its latest row and those at most seven versions older; a key whose
    latest row is not older than the cutoff, as the database compares them, loses nothing; an old tombstone disappears
    with all its rows.
   */
  lemma {:induction false} PurgeRetention(log: Log, cutoff: int, id: Key)
    requires Unique(log) && Latest(log, id).Some?
    ensures var latest := Latest(log, id).value; var kept := RowsOf(Purge(log, cutoff), id);
      if !Older(latest.created, cutoff) then
        forall row :: row in kept <==> row in log && row.id == id
      else if latest.deleted then kept == []
      else
        && latest in kept && |kept| <= 8
        && forall row :: row in kept <==> row in log && row.id == id && row.version >= latest.version - 7
  {
    var latest := Latest(log, id).value;
    var purged := Purge(log, cutoff);
    var kept := RowsOf(purged, id);
    KeptRowsSpec(log, log, cutoff);
    RowsOfSpec(purged, id);
    RowsOfUnique(purged, id);
    LatestSpec(log, id);
    forall k | 0 <= k < |kept| ensures kept[k].id == id && Kept(log, cutoff, kept[k]) {
      assert kept[k] in kept;
    }
    assert |kept| > 0 ==> Kept(log, cutoff, kept[0]);
    if Older(latest.created, cutoff) && !latest.deleted {
      DistinctVersionsFit(kept, latest.version - MAX_VERSIONS_TO_KEEP, latest.version);
    }
  }

  /* ---- which cutoffs keep what is young ---- */

  lemma {:induction false} TenDigitText(created: int)
    requires TenDigits(created)
    ensures |Digits(created)| == 10 && '1' <= Digits(created)[0] <= '9'
  {
    SmallPowers();
    DigitsLength(created, 10);
    DigitsLength(created, 9);
  }

  lemma SmallPowers()
    ensures PowerOfTen(9) == 1_000_000_000 && PowerOfTen(10) == 10_000_000_000
  {
    assert PowerOfTen(3) == 1000;
    assert PowerOfTen(6) == 1000 * PowerOfTen(3);
    assert PowerOfTen(9) == 1000 * PowerOfTen(6);
    assert PowerOfTen(10) == 10 * PowerOfTen(9);
  }

  /** Against a safe cutoff a ten-digit date is older exactly if it is earlier. */
  lemma OlderIsEarlier(created: int, cutoff: int)
    requires TenDigits(created) && SafeCutoff(cutoff) && cutoff < 10_000_000_000
    ensures Older(created, cutoff) <==> created < cutoff
  {
    if cutoff >= 1_000_000_000 {
      TenDigitText(created);
      TenDigitText(cutoff);
      DigitsOrder(created, cutoff);
    } else if cutoff >= 0 {
      ShortCutoffKeeps(created, cutoff);
    } else {
      TenDigitText(created);
    }
  }

  lemma {:induction false} ShortCutoffKeeps(created: int, cutoff: int)
    requires TenDigits(created) && 0 <= cutoff < 1_000_000_000 && (cutoff == 0 || IsPowerOfTen(cutoff))
    ensures !Older(created, cutoff)
  {
    TenDigitText(created);
    ShortText(cutoff);
    LongerOrder(created, cutoff);
    if cutoff > 0 {
      PowerIsLeast(cutoff);
      LeadingIsPositive(created, cutoff);
      LeastOfItsLength(Leading(created, cutoff));
    }
  }

  lemma {:induction false} LeadingIsPositive(n: nat, m: nat)
    requires n > 0
    ensures Leading(n, m) > 0
    decreases n
  {
    if n >= 10 {
      LeadingIsPositive(n / 10, m);
    }
  }

  lemma {:induction false} LeastOfItsLength(n: nat)
    ensures n > 0 ==> |Digits(n)| > 0 && PowerOfTen(|Digits(n)| - 1) <= n
  {
    if n > 0 {
      PowerIsLeast(n);
    }
  }

  lemma {:induction false} ShortText(cutoff: int)
    requires 0 <= cutoff < 1_000_000_000
    ensures 0 < |Digits(cutoff)| < 10
  {
    SmallPowers();
    DigitsLength(cutoff, 9);
  }

  /** Against any other cutoff the first ten-digit date is older, though it is later. */
  lemma UnsafeCutoff(cutoff: int)
    requires !SafeCutoff(cutoff)
    ensures Older(1_000_000_000, cutoff) && cutoff < 1_000_000_000
  {
    SmallPowers();
    ShortText(cutoff);
    TenDigitText(1_000_000_000);
    LongerOrder(1_000_000_000, cutoff);
    LeadingOfPower(9, cutoff);
    PowerIsLeast(cutoff);
  }

  /** So exactly the safe cutoffs order all dates of ten digits as numbers do. */
  lemma DatesCompareIff(cutoff: int)
    requires cutoff < 10_000_000_000
    ensures SafeCutoff(cutoff) <==> forall created :: TenDigits(created) ==> (Older(created, cutoff) <==> created < cutoff)
  {
    if SafeCutoff(cutoff) {
      forall created | TenDigits(created) ensures Older(created, cutoff) <==> created < cutoff {
        OlderIsEarlier(created, cutoff);
      }
    } else {
      UnsafeCutoff(cutoff);
      assert TenDigits(1_000_000_000);
    }
  }

  /** The log has only dates of ten digits. */
  ghost predicate TenDigitDates(log: Log) {
    forall row :: row in log ==> TenDigits(row.created)
  }

  /** A key whose latest row is not older than the cutoff loses no row. */
  ghost predicate KeepsYoungKeys(log: Log, cutoff: int) {
    forall id :: Latest(log, id).Some? && Latest(log, id).value.created >= cutoff ==>
      forall row :: row in log && row.id == id ==> row in Purge(log, cutoff)
  }

  /**
    Exactly which cutoffs keep every young key of every log: the negative ones, zero, the powers of ten, and those of
    ten digits. Any other, as a retention of many years gives, purges keys that are young.
   */
  lemma YoungKeysAreKeptIff(cutoff: int)
    requires cutoff < 10_000_000_000
    ensures SafeCutoff(cutoff) <==> forall log :: Unique(log) && TenDigitDates(log) ==> KeepsYoungKeys(log, cutoff)
  {
    if SafeCutoff(cutoff) {
      forall log | Unique(log) && TenDigitDates(log) ensures KeepsYoungKeys(log, cutoff) {
        forall id: Key | Latest(log, id).Some? && Latest(log, id).value.created >= cutoff
          ensures forall row: Row :: row in log && row.id == id ==> row in Purge(log, cutoff)
        {
          LatestSpec(log, id);
          OlderIsEarlier(Latest(log, id).value.created, cutoff);
          KeptRowsSpec(log, log, cutoff);
        }
      }
    } else {
      UnsafeCutoff(cutoff);
      YoungKeyIsPurged(1_000_000_000, cutoff);
    }
  }

  /** A log of one deleted key. */
  function OneTombstone(created: int): Log {
    [Row(Key("ns", "k"), "v", 1, 0, created, true)]
  }

  lemma YoungKeyIsPurged(created: int, cutoff: int)
    requires TenDigits(created) && Older(created, cutoff) && created >= cutoff
    ensures var log := OneTombstone(created);
      Unique(log) && TenDigitDates(log) && !KeepsYoungKeys(log, cutoff) && Purge(log, cutoff) == []
  {
    var log := OneTombstone(created);
    assert log[..0] == [];
    assert Latest(log, log[0].id) == Some(log[0]);
    assert KeptRows(log[..0], log, cutoff) == [];
    assert !Kept(log, cutoff, log[0]);
    assert log[0] in log;
  }

  /** For example: asked to retain 9999 days at second 1795000000, the purge drops a tombstone of second 1700000000. */
  lemma LongRetentionExample()
    ensures var log, cutoff := OneTombstone(1_700_000_000), Cutoff(1_795_000_000, 9999);
      && cutoff < 1_700_000_000 && !SafeCutoff(cutoff)
      && Unique(log) && TenDigitDates(log) && !KeepsYoungKeys(log, cutoff) && Purge(log, cutoff) == []
  {
    var created, cutoff := 1_700_000_000, Cutoff(1_795_000_000, 9999);
    assert cutoff == 931_086_400;
    TenDigitText(created);
    NineDigitText(cutoff);
    LongerOrder(created, cutoff);
    NineDigitText(created / 10);
    assert Leading(created, cutoff) == created / 10;
    YoungKeyIsPurged(created, cutoff);
  }

  lemma {:induction false} NineDigitText(n: int)
    requires 100_000_000 <= n < 1_000_000_000
    ensures |Digits(n)| == 9
  {
    TenDigitText(10 * n);
    assert 10 * n / 10 == n;
  }
}
