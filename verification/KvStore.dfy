/**
  The versioned key-value store: a working set of entries in memory over an append-only log of row versions.
  The functions here say what each operation does; KvObjects has the objects that do it in place.
 */
module KvStore {
  import opened Options
  import opened Seqs
  import opened Text

  const MAX_VERSIONS_TO_KEEP := 7

  datatype Key = Key(namespace: string, name: string)

  datatype Entry = Entry(value: string, version: int, ttl: int, deleted: bool, changed: bool, modified: int)

  datatype Row = Row(id: Key, value: string, version: int, ttl: int, created: int, deleted: bool)

  type Entries = map<Key, Entry>
  type Log = seq<Row>

  /* ---- the log ---- */

  /** The row with the highest version of a key. */
  function Latest(log: Log, id: Key): Option<Row> {
    if log == [] then None
    else
      var before := Latest(log[..|log| - 1], id);
      var last := log[|log| - 1];
      if last.id == id && (before.None? || before.value.version < last.version) then Some(last) else before
  }

  /** No (namespace, key, version) twice. */
  ghost predicate Unique(log: Log) {
    forall i, j :: 0 <= i < j < |log| && log[i].id == log[j].id ==> log[i].version != log[j].version
  }

  function Ids(log: Log): set<Key> {
    set row | row in log :: row.id
  }

  function FromRow(row: Row): Entry {
    Entry(row.value, row.version, row.ttl, row.deleted, false, row.created)
  }

  function ToRow(id: Key, e: Entry, now: int): Row {
    Row(id, e.value, e.version, e.ttl, now, e.deleted)
  }

  /** What a store hydrated from the log holds. */
  ghost function Loaded(log: Log): Entries {
    map id | id in Ids(log) && Latest(log, id).Some? :: FromRow(Latest(log, id).value)
  }

  lemma {:induction false} LatestSpec(log: Log, id: Key)
    ensures Latest(log, id).None? <==> forall row :: row in log ==> row.id != id
    ensures Latest(log, id).Some? ==> (
      var r := Latest(log, id).value;
      r in log && r.id == id && forall row :: row in log && row.id == id ==> row.version <= r.version)
  {
    if log != [] {
      var front, last := log[..|log| - 1], log[|log| - 1];
      LatestSpec(front, id);
      assert log == front + [last];
    }
  }

  lemma {:induction false} LoadedSpec(log: Log, id: Key)
    ensures id in Loaded(log) <==> Latest(log, id).Some?
    ensures id in Loaded(log) ==> Loaded(log)[id] == FromRow(Latest(log, id).value)
  {
    LatestSpec(log, id);
  }

  /* ---- the operations on the working set ---- */

  function PutEntry(m: Entries, id: Key, value: string, ttl: int): Entries {
    if id !in m then m[id := Entry(value, 1, ttl, false, true, 0)]
    else
      var e := m[id];
      if e.deleted then m[id := e.(value := value, ttl := ttl, deleted := false, version := e.version + 1, changed := true)]
      else if e.ttl == ttl && e.value == value then m
      else m[id := e.(value := value, ttl := ttl, version := e.version + 1, changed := true)]
  }

  datatype DeleteResult = Deleted | NamespaceNotFound | NotFound

  predicate HasNamespace(m: Entries, namespace: string) {
    exists id :: id in m && id.namespace == namespace
  }

  function DeleteOutcome(m: Entries, id: Key): DeleteResult {
    if !HasNamespace(m, id.namespace) then NamespaceNotFound
    else if id !in m then NotFound
    else Deleted
  }

  function Tombstone(e: Entry): Entry {
    e.(deleted := true, changed := true, version := e.version + 1)
  }

  function DeleteEntry(m: Entries, id: Key): Entries {
    if id in m then m[id := Tombstone(m[id])] else m
  }

  function PurgeNamespaceEntries(m: Entries, namespace: string): Entries {
    map id | id in m :: if id.namespace == namespace && !m[id].deleted then Tombstone(m[id]) else m[id]
  }

  function CleanEntry(e: Entry, now: int): Entry {
    if e.changed then e.(changed := false, modified := now) else e
  }

  function Clean(m: Entries, now: int): Entries {
    map id | id in m :: CleanEntry(m[id], now)
  }

  function ChangedKeys(m: Entries): set<Key> {
    set id | id in m && m[id].changed
  }

  function NewRows(m: Entries, order: seq<Key>, now: int): (rows: Log)
    requires forall id :: id in order ==> id in m
    ensures |rows| == |order| && forall i :: 0 <= i < |order| ==> rows[i] == ToRow(order[i], m[order[i]], now)
  {
    seq(|order|, i requires 0 <= i < |order| => ToRow(order[i], m[order[i]], now))
  }

  /* ---- purging stale history ---- */

  const SECONDS_PER_DAY := 24 * 60 * 60

  function Cutoff(now: int, retainDays: int): int {
    now - (if retainDays < 0 then 0 else retainDays) * SECONDS_PER_DAY
  }

  /**
    Whether a row's date is before the cutoff. The date is stored as text and the cutoff has no type of its own, so
    the database compares the two as text.
   */
  predicate Older(created: int, cutoff: int) {
    Before(Decimal(created), Decimal(cutoff))
  }

  /** A date since 2001 and before 2286, as the clock gives it in seconds. */
  predicate TenDigits(created: int) {
    1_000_000_000 <= created < 10_000_000_000
  }

  /** A cutoff that as text orders all such dates as it does as a number. */
  predicate SafeCutoff(cutoff: int) {
    cutoff <= 0 || cutoff >= 1_000_000_000 || IsPowerOfTen(cutoff)
  }

  /** The row survives the purge of `log`. */
  predicate Kept(log: Log, cutoff: int, row: Row) {
    var latest := Latest(log, row.id);
    latest.Some? ==>
      !(&& (row.version < latest.value.version - MAX_VERSIONS_TO_KEEP || latest.value.deleted)
        && Older(latest.value.created, cutoff))
  }

  function KeptRows(part: Log, log: Log, cutoff: int): Log {
    if part == [] then []
    else
      var before := KeptRows(part[..|part| - 1], log, cutoff);
      var last := part[|part| - 1];
      if Kept(log, cutoff, last) then before + [last] else before
  }

  function Purge(log: Log, cutoff: int): Log {
    KeptRows(log, log, cutoff)
  }

  /* ---- sessions: a store over a log, and the calls made on them ---- */

  datatype Session = Session(store: Entries, log: Log)

  ghost function Open(log: Log): Session {
    Session(Loaded(log), log)
  }

  /** `Persist` carries the clock and the order in which the store happened to be traversed. */
  datatype Op =
    | Put(id: Key, value: string, ttl: int)
    | PutSecret(id: Key, encrypted: string, ttl: int)
    | Delete(id: Key)
    | PurgeNamespace(namespace: string)
    | Persist(now: int, order: seq<Key>)
    | Reload
    | PurgeStale(cutoff: int)

  ghost predicate Legal(s: Session, op: Op) {
    op.Persist? ==> NoDup(op.order) && Elems(op.order) == ChangedKeys(s.store)
  }

  ghost function Apply(s: Session, op: Op): Session
    requires Legal(s, op)
  {
    match op
    case Put(id, value, ttl) => s.(store := PutEntry(s.store, id, TrimSpace(value), ttl))
    case PutSecret(id, encrypted, ttl) => s.(store := PutEntry(s.store, id, encrypted, ttl))
    case Delete(id) => s.(store := DeleteEntry(s.store, id))
    case PurgeNamespace(namespace) => s.(store := PurgeNamespaceEntries(s.store, namespace))
    case Persist(now, order) =>
      assert forall id :: id in order ==> id in Elems(order);
      Session(Clean(s.store, now), s.log + NewRows(s.store, order, now))
    case Reload => Open(s.log)
    case PurgeStale(cutoff) => s.(log := Purge(s.log, cutoff))
  }

  ghost predicate LegalRun(s: Session, ops: seq<Op>)
    decreases |ops|
  {
    ops != [] ==> Legal(s, ops[0]) && LegalRun(Apply(s, ops[0]), ops[1..])
  }

  ghost function Run(s: Session, ops: seq<Op>): Session
    requires LegalRun(s, ops)
    decreases |ops|
  {
    if ops == [] then s else Run(Apply(s, ops[0]), ops[1..])
  }
}
