/**
  The allocation rows of a deployment and their plan hashes, with what each statement of the data layer does to
  a row. SQL's NULL is None; a comparison with NULL is not true.
 */
module AllocationTable {
  import opened FileManifests
  import opened Options
  import opened Seqs
  import opened Text

  const DEFAULT_ALLOCATION_VERSION := "0.0.0"

  /** What older releases left in previous_hash after a failed health check. */
  const HEALTH_FAILED := "__maand_health_failed__"

  datatype Slot = Slot(worker: string, job: string)

  /** The hash row of an allocation: staged (current) and promoted (previous) content, and the running version. */
  datatype Plan = Plan(
    currentHash: Option<string>, previousHash: Option<string>,
    currentFiles: Option<Manifest>, previousFiles: Option<Manifest>,
    currentVersion: Option<string>)

  datatype Allocation = Allocation(
    removed: bool, disabled: bool, deploymentSeq: int, newVersion: Option<string>, plan: Option<Plan>)

  type Table = map<Slot, Allocation>

  /** A staged tree: its aggregate hash and its files. */
  datatype Tree = Tree(hash: string, files: Manifest)

  predicate Active(a: Allocation) {
    !a.removed && !a.disabled
  }

  /** The hash function never yields an empty text or the health marker. */
  predicate ContentHash(hash: string) {
    hash != "" && hash != HEALTH_FAILED
  }

  /* ---- versions ---- */

  /** Simple case folding, as far as it reaches the letters of "unknown"; the Kelvin sign folds to k. */
  function Fold(c: char): char {
    if 'A' <= c <= 'Z' then (c as int + 32) as char else if c as int == 0x212A then 'k' else c
  }

  predicate IsUnknown(s: string) {
    |s| == 7 && forall i :: 0 <= i < 7 ==> Fold(s[i]) == "unknown"[i]
  }

  function NormalizeDeployVersion(raw: string): string {
    var v := TrimSpace(raw);
    if v == "" || IsUnknown(v) then DEFAULT_ALLOCATION_VERSION else v
  }

  /** A version the normalisation leaves as it is. */
  predicate Normal(version: string) {
    Trimmed(version) && version != "" && !IsUnknown(version)
  }

  lemma NormalizedIsNormal(raw: string)
    ensures Normal(NormalizeDeployVersion(raw))
    ensures Normal(raw) <==> NormalizeDeployVersion(raw) == raw
  {
    TrimSpaceTrims(raw);
    DefaultIsNormal();
    if Normal(raw) {
      TrimSpaceOfTrimmed(raw);
    }
  }

  lemma DefaultIsNormal()
    ensures Normal(DEFAULT_ALLOCATION_VERSION)
  {
  }

  /** "unknown" is recognised letter by letter in either case, with the Kelvin sign for a k. */
  lemma UnknownIff(s: string)
    ensures IsUnknown(s) <==>
      && |s| == 7 && s[0] in "uU" && s[1] in "nN" && (s[2] in "kK" || s[2] as int == 0x212A) && s[3] in "nN"
      && s[4] in "oO" && s[5] in "wW" && s[6] in "nN"
  {
    if IsUnknown(s) {
      assert forall i :: 0 <= i < 7 ==> Fold(s[i]) == "unknown"[i];
      assert Fold(s[0]) == 'u' && Fold(s[1]) == 'n' && Fold(s[2]) == 'k' && Fold(s[3]) == 'n';
    }
  }

  /** A version keeps its text without the white space around it; none, or "unknown", is the default. */
  lemma NormalizedText(before: string, core: string, after: string)
    requires Blank(before) && Blank(after) && Trimmed(core)
    ensures NormalizeDeployVersion(before + core + after) == if core == "" || IsUnknown(core) then "0.0.0" else core
  {
    TrimsPadding(before, core, after);
  }

  function IfNull(value: Option<string>, default: string): string {
    if value.Some? then value.value else default
  }

  function NormalizeStoredVersion(value: Option<string>): string {
    if value.Some? then NormalizeDeployVersion(value.value) else DEFAULT_ALLOCATION_VERSION
  }

  /* ---- what one statement does to a row ---- */

  function RefreshRow(a: Allocation, tree: Tree): Allocation {
    match a.plan
    case None =>
      a.(plan := Some(Plan(Some(tree.hash), None, Some(tree.files), None, Some(DEFAULT_ALLOCATION_VERSION))))
    case Some(p) => a.(plan := Some(p.(currentHash := Some(tree.hash), currentFiles := Some(tree.files))))
  }

  function PromoteRow(a: Allocation): Allocation {
    match a.plan
    case None => a
    case Some(p) =>
      a.(plan := Some(p.(
        previousHash := p.currentHash, previousFiles := p.currentFiles,
        currentVersion := Some(IfNull(a.newVersion, DEFAULT_ALLOCATION_VERSION)))))
  }

  function StartPendingRow(a: Allocation): Allocation {
    match a.plan
    case None => a
    case Some(p) => a.(plan := Some(p.(previousHash := None, previousFiles := None)))
  }

  function ClearLiveRow(a: Allocation): Allocation {
    match a.plan
    case None => a
    case Some(p) => a.(plan := Some(p.(previousHash := None, previousFiles := None, currentVersion := None)))
  }

  /**
    A row through two deploys: promoting moves what is staged to what is promoted, hash and files together, and takes
    the version the row has now; staging the next tree keeps what is promoted. The flags are not touched.
   */
  lemma TwoDeploys(a: Allocation, first: Tree, second: Tree)
    ensures var once := PromoteRow(RefreshRow(a, first));
      var staged := RefreshRow(once, second);
      var version := Some(if a.newVersion.Some? then a.newVersion.value else "0.0.0");
      var x, y, v, w := Some(first.hash), Some(second.hash), Some(first.files), Some(second.files);
      && once == a.(plan := Some(Plan(x, x, v, v, version)))
      && staged == a.(plan := Some(Plan(y, x, w, v, version)))
      && PromoteRow(staged) == a.(plan := Some(Plan(y, y, w, w, version)))
      && GetAllocationHash(staged) == Hashes(second.hash, first.hash, true)
  {
  }

  /** A row without a plan gets one with nothing promoted; a start pending clears only what was promoted. */
  lemma FirstStaging(a: Allocation, tree: Tree)
    ensures a.plan.None? ==>
      RefreshRow(a, tree) == a.(plan := Some(Plan(Some(tree.hash), None, Some(tree.files), None, Some("0.0.0"))))
    ensures var again := RefreshRow(StartPendingRow(PromoteRow(RefreshRow(a, tree))), tree);
      && again.plan.value.previousHash.None? && again.plan.value.previousFiles.None?
      && GetAllocationHash(again) == Hashes(tree.hash, "", true)
      && again.plan.value.currentVersion == Some(if a.newVersion.Some? then a.newVersion.value else "0.0.0")
  {
  }

  datatype Op =
    | Upsert(slot: Slot, version: string)
    | Flag(slot: Slot, removed: bool, disabled: bool, wave: int)
    | SetVersion(slot: Slot, version: string)
    | Refresh(slot: Slot, tree: Tree)
    | PromoteState(slot: Slot)
    | MarkStartPending(slot: Slot)
    | ClearLiveState(slot: Slot)
    | RemoveHash(slot: Slot)
    | Delete(slot: Slot)

  function RowAfter(a: Allocation, op: Op): Allocation
    requires !op.Delete?
  {
    match op
    case Upsert(_, v) => Allocation(false, false, 0, Some(NormalizeDeployVersion(v)), a.plan)
    case Flag(_, r, d, s) => a.(removed := r, disabled := d, deploymentSeq := s)
    case SetVersion(_, v) => a.(newVersion := Some(NormalizeDeployVersion(v)))
    case Refresh(_, tree) => RefreshRow(a, tree)
    case PromoteState(_) => PromoteRow(a)
    case MarkStartPending(_) => StartPendingRow(a)
    case ClearLiveState(_) => ClearLiveRow(a)
    case RemoveHash(_) => a.(plan := None)
  }

  const NEW_ROW := Allocation(false, false, 0, None, None)

  /** One statement. Only the upsert makes a row; the others leave a table without the row as it is. */
  function Apply(t: Table, op: Op): Table {
    if op.Delete? then t - {op.slot}
    else if op.slot in t then t[op.slot := RowAfter(t[op.slot], op)]
    else if op.Upsert? then t[op.slot := RowAfter(NEW_ROW, op)]
    else t
  }

  function Run(t: Table, ops: seq<Op>): Table
    decreases |ops|
  {
    if ops == [] then t else Apply(Run(t, ops[..|ops| - 1]), ops[|ops| - 1])
  }

  predicate Legal(ops: seq<Op>) {
    forall op :: op in ops && op.Refresh? ==> ContentHash(op.tree.hash)
  }

  /* ---- what every reachable row satisfies ---- */

  predicate SoundVersion(v: Option<string>) {
    v.Some? ==> Normal(v.value)
  }

  predicate SoundPlan(p: Plan) {
    && p.currentHash.Some? && ContentHash(p.currentHash.value) && p.currentFiles.Some?
    && (p.previousHash.Some? ==> ContentHash(p.previousHash.value))
    && p.previousHash.Some? == p.previousFiles.Some?
    && SoundVersion(p.currentVersion)
  }

  predicate Sound(a: Allocation) {
    SoundVersion(a.newVersion) && (a.plan.Some? ==> SoundPlan(a.plan.value))
  }

  ghost predicate SoundTable(t: Table) {
    forall slot :: slot in t ==> Sound(t[slot])
  }

  lemma RowAfterIsSound(a: Allocation, op: Op)
    requires Sound(a) && !op.Delete? && (op.Refresh? ==> ContentHash(op.tree.hash))
    ensures Sound(RowAfter(a, op))
  {
    DefaultIsNormal();
    if op.Upsert? || op.SetVersion? {
      NormalizedIsNormal(op.version);
    }
  }

  lemma {:induction false} ReachableIsSound(ops: seq<Op>)
    requires Legal(ops)
    ensures SoundTable(Run(map[], ops))
    decreases |ops|
  {
    if ops != [] {
      var front, op := ops[..|ops| - 1], ops[|ops| - 1];
      assert op in ops && Legal(front);
      ReachableIsSound(front);
      var t := Run(map[], front);
      if !op.Delete? {
        if op.slot in t {
          RowAfterIsSound(t[op.slot], op);
        }
        RowAfterIsSound(NEW_ROW, op);
      }
    }
  }

  /* ---- the selectors' conditions, row by row ---- */

  predicate NonRemoved(a: Allocation) {
    !a.removed
  }

  predicate IsNew(a: Allocation) {
    a.plan.Some? && a.plan.value.previousHash.None? && !a.removed && !a.disabled
  }

  /** SQL's `previous_hash IS NOT NULL AND previous_hash != current_hash`. */
  predicate ContentChanged(a: Allocation) {
    && a.plan.Some? && a.plan.value.previousHash.Some? && a.plan.value.currentHash.Some?
    && a.plan.value.previousHash.value != a.plan.value.currentHash.value
  }

  predicate IsUpdated(a: Allocation) {
    ContentChanged(a) && !a.removed && !a.disabled
  }

  predicate IsUpdatedNonRemoved(a: Allocation) {
    ContentChanged(a) && !a.removed
  }

  function CurrentVersion(a: Allocation): Option<string> {
    if a.plan.Some? then a.plan.value.currentVersion else None
  }

  predicate VersionDiffers(a: Allocation) {
    IfNull(CurrentVersion(a), DEFAULT_ALLOCATION_VERSION) != IfNull(a.newVersion, DEFAULT_ALLOCATION_VERSION)
  }

  predicate IsVersionPending(a: Allocation) {
    VersionDiffers(a) && !a.removed && !a.disabled
  }

  predicate IsVersionPendingNonRemoved(a: Allocation) {
    VersionDiffers(a) && !a.removed
  }

  /** The workers whose row of the job satisfies a condition. */
  function Workers(t: Table, job: string, condition: Allocation -> bool): (r: set<string>)
    ensures forall w :: w in r <==> Slot(w, job) in t && condition(t[Slot(w, job)])
  {
    set slot | slot in t && slot.job == job && condition(t[slot]) :: slot.worker
  }

  /* ---- reading one row ---- */

  datatype Hashes = Hashes(current: string, previous: string, found: bool)

  function GetAllocationHash(a: Allocation): Hashes {
    match a.plan
    case None => Hashes("", "", false)
    case Some(p) => Hashes(IfNull(p.currentHash, ""), IfNull(p.previousHash, ""), true)
  }

  predicate AllocationNeedsVersionRollout(a: Allocation) {
    NormalizeStoredVersion(CurrentVersionText(a)) != NormalizeStoredVersion(a.newVersion)
  }

  /** The query reads a NULL running version as an empty text. */
  function CurrentVersionText(a: Allocation): Option<string> {
    match a.plan
    case None => None
    case Some(p) => Some(IfNull(p.currentVersion, ""))
  }

  /** On reachable rows the SQL comparison and the normalising one agree. */
  lemma VersionChecksAgree(a: Allocation)
    requires Sound(a)
    ensures AllocationNeedsVersionRollout(a) <==> VersionDiffers(a)
  {
  }

  /** They would not on a row that had skipped the normalisation. */
  lemma VersionChecksNeedSoundRows()
    ensures var a := Allocation(false, false, 0, Some(""), None);
      VersionDiffers(a) && !AllocationNeedsVersionRollout(a)
  {
  }

  /* ---- which changes of a tree are seen ---- */

  /** A staged tree with its aggregate hash; `digest` stands for the hash function. */
  ghost function TreeOf(files: Manifest, digest: string -> string): Tree {
    Tree(digest(Join(Digests(files), "")), files)
  }

  /**
    A promoted row staged again shows changed content exactly if the digests in path order changed: paths do not
    enter the hash, so files renamed without changing places in that order are not seen.
   */
  lemma ContentChangeSeenIff(a: Allocation, promoted: Manifest, staged: Manifest, digest: string -> string, n: nat)
    requires a.plan.Some? && a.plan.value.previousHash == Some(TreeOf(promoted, digest).hash)
    requires n > 0 && AllOfLength(Digests(promoted), n) && AllOfLength(Digests(staged), n)
    requires forall x, y :: digest(x) == digest(y) ==> x == y
    ensures ContentChanged(RefreshRow(a, TreeOf(staged, digest))) <==> Digests(staged) != Digests(promoted)
  {
    JoinedDigests(Digests(promoted), Digests(staged), n);
  }

  /** A file renamed is another manifest under the same hash. */
  lemma RenameIsNotSeen(from: string, to: string, content: string, digest: string -> string)
    requires from != to
    ensures var before, after := map[from := content], map[to := content];
      Differs(before, after, from) && Differs(before, after, to) && TreeOf(before, digest).hash == TreeOf(after, digest).hash
  {
    OneDigest(from, content);
    OneDigest(to, content);
  }

  lemma OneDigest(path: string, content: string)
    ensures Digests(map[path := content]) == [content]
  {
    var files := map[path := content];
    var paths := SortedList(files.Keys);
    NoDupCardinality(paths);
    assert Elems(paths) == {path};
    assert paths[0] in paths;
  }

  lemma {:induction false} RunSnoc(t: Table, ops: seq<Op>, op: Op)
    ensures Run(t, ops + [op]) == Apply(Run(t, ops), op)
  {
    assert (ops + [op])[..|ops|] == ops;
  }

  /* ---- the transaction ---- */

  class Tx {
    var table: Table

    constructor (t: Table)
      ensures table == t
    {
      table := t;
    }

    /** Back to the table the transaction began with. */
    method Rollback(begun: Table)
      modifies this
      ensures table == begun
    {
      table := begun;
    }

    method UpsertAllocation(slot: Slot, version: string)
      modifies this
      ensures table == Apply(old(table), Upsert(slot, version))
    {
      var plan := if slot in table then table[slot].plan else None;
      table := table[slot := Allocation(false, false, 0, Some(NormalizeDeployVersion(version)), plan)];
    }

    method SetAllocationNewVersion(slot: Slot, version: string)
      modifies this
      ensures table == Apply(old(table), SetVersion(slot, version))
    {
      if slot in table {
        table := table[slot := table[slot].(newVersion := Some(NormalizeDeployVersion(version)))];
      }
    }

    method UpdateAllocationPlan(slot: Slot, tree: Tree)
      modifies this
      ensures table == Apply(old(table), Refresh(slot, tree))
    {
      if slot !in table {
        return;
      }
      var row := table[slot];
      if row.plan.None? {
        var inserted := Plan(Some(tree.hash), None, Some(tree.files), None, Some(DEFAULT_ALLOCATION_VERSION));
        table := table[slot := row.(plan := Some(inserted))];
        return;
      }
      table := table[slot :=
        row.(plan := Some(row.plan.value.(currentHash := Some(tree.hash), currentFiles := Some(tree.files))))];
    }

    method PromoteAllocationState(slot: Slot)
      modifies this
      ensures table == Apply(old(table), PromoteState(slot))
    {
      if slot in table && table[slot].plan.Some? {
        var row := table[slot];
        var p := row.plan.value;
        table := table[slot := row.(plan := Some(p.(
          previousHash := p.currentHash, previousFiles := p.currentFiles,
          currentVersion := Some(IfNull(row.newVersion, DEFAULT_ALLOCATION_VERSION)))))];
      }
    }

    method MarkAllocationStartPending(slot: Slot)
      modifies this
      ensures table == Apply(old(table), MarkStartPending(slot))
    {
      if slot in table && table[slot].plan.Some? {
        var p := table[slot].plan.value;
        table := table[slot := table[slot].(plan := Some(p.(previousHash := None, previousFiles := None)))];
      }
    }

    method ClearAllocationLiveState(slot: Slot)
      modifies this
      ensures table == Apply(old(table), ClearLiveState(slot))
    {
      if slot in table && table[slot].plan.Some? {
        var p := table[slot].plan.value;
        table := table[slot :=
          table[slot].(plan := Some(p.(previousHash := None, previousFiles := None, currentVersion := None)))];
      }
    }

    method RemoveAllocationHash(slot: Slot)
      modifies this
      ensures table == Apply(old(table), RemoveHash(slot))
    {
      if slot in table {
        table := table[slot := table[slot].(plan := None)];
      }
    }

    /** Every query without ORDER BY returns its rows in an order the caller cannot rely on. */
    method Select(job: string, condition: Allocation -> bool) returns (workers: seq<string>)
      ensures NoDup(workers) && Elems(workers) == Workers(table, job, condition)
      ensures forall w :: w in workers <==> Slot(w, job) in table && condition(table[Slot(w, job)])
    {
      workers := Enumerate(Workers(table, job, condition));
      assert forall w :: w in workers <==> w in Elems(workers);
    }
  }
}
