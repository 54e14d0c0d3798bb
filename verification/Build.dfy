/** The build's pass over the allocations: place what matches, remove what does not, disable, and mark the re-enabled. */
module Build {
  import opened AllocationTable
  import opened Options
  import opened RolloutPlanner
  import opened RolloutPolicy
  import opened Seqs
  import opened Sets

  /** The disabled.json of a workspace; a job without a list of workers is disabled everywhere. */
  datatype DisableConfig = DisableConfig(workers: seq<string>, jobs: map<string, seq<string>>)

  /** What a build reads: the workers, the jobs each matches by its labels, their target versions, what is disabled. */
  datatype Workspace = Workspace(
    workers: seq<string>, matches: string -> seq<string>, versions: string -> string, disabled: DisableConfig)

  /* ---- what the build makes of one row ---- */

  predicate Matched(ws: Workspace, slot: Slot) {
    slot.worker in ws.workers && slot.job in ws.matches(slot.worker)
  }

  predicate JobOff(d: DisableConfig, slot: Slot) {
    slot.job in d.jobs && (d.jobs[slot.job] == [] || slot.worker in d.jobs[slot.job])
  }

  predicate SwitchedOff(d: DisableConfig, slot: Slot) {
    slot.worker in d.workers || JobOff(d, slot)
  }

  /** Matched rows are inserted or replaced; of the others the existing ones are removed. */
  function Placed(ws: Workspace, slot: Slot, before: Option<Allocation>): Option<Allocation> {
    if Matched(ws, slot) then
      Some(RowAfter(if before.Some? then before.value else NEW_ROW, Upsert(slot, ws.versions(slot.job))))
    else if before.Some? then Some(before.value.(removed := true))
    else None
  }

  function Switched(d: DisableConfig, slot: Slot, a: Allocation): Allocation {
    if SwitchedOff(d, slot) then a.(disabled := true) else a
  }

  /** The row was disabled, and not removed, when the build began. */
  predicate WasDisabled(before: Option<Allocation>) {
    before.Some? && before.value.disabled && !before.value.removed
  }

  function Marked(before: Option<Allocation>, a: Allocation): Allocation {
    if WasDisabled(before) && Active(a) then StartPendingRow(a) else a
  }

  function BuiltRow(ws: Workspace, slot: Slot, before: Option<Allocation>): Option<Allocation> {
    match Placed(ws, slot, before)
    case None => None
    case Some(a) => Some(Marked(before, Switched(ws.disabled, slot, a)))
  }

  /* ---- the whole table ---- */

  function Row(t: Table, slot: Slot): Option<Allocation> {
    if slot in t then Some(t[slot]) else None
  }

  /** The table after a build, row by row. */
  ghost predicate Built(after: Table, before: Table, ws: Workspace) {
    forall slot :: Row(after, slot) == BuiltRow(ws, slot, Row(before, slot))
  }

  /** The slots of this set are placed, the others as before. */
  ghost predicate PlacedIn(now: Table, before: Table, ws: Workspace, reached: iset<Slot>) {
    forall slot :: Row(now, slot) == if slot in reached then Placed(ws, slot, Row(before, slot)) else Row(before, slot)
  }

  method LoadDisabledAllocations(tx: Tx) returns (disabled: set<Slot>)
    ensures forall slot :: slot in disabled <==> WasDisabled(Row(tx.table, slot))
  {
    disabled := set slot | slot in tx.table && tx.table[slot].disabled && !tx.table[slot].removed;
  }

  function Removing(row: Option<Allocation>): Option<Allocation> {
    if row.Some? then Some(row.value.(removed := true)) else None
  }

  method UpsertMatched(tx: Tx, ws: Workspace, worker: string, ghost before: Table, ghost done: iset<Slot>)
    requires worker in ws.workers && PlacedIn(tx.table, before, ws, done)
    modifies tx
    ensures PlacedIn(tx.table, before, ws, done + JobsOn(worker, ws.matches(worker)))
  {
    var matched := ws.matches(worker);
    for i := 0 to |matched|
      invariant PlacedIn(tx.table, before, ws, done + JobsOn(worker, matched[..i]))
    {
      assert matched[..i + 1] == matched[..i] + [matched[i]];
      PlacesOne(tx.table, before, ws, done + JobsOn(worker, matched[..i]), Slot(worker, matched[i]));
      assert done + JobsOn(worker, matched[..i + 1]) == done + JobsOn(worker, matched[..i]) + iset{Slot(worker, matched[i])};
      tx.UpsertAllocation(Slot(worker, matched[i]), ws.versions(matched[i]));
    }
    assert matched[..|matched|] == matched;
  }

  ghost function JobsOn(worker: string, jobs: seq<string>): iset<Slot> {
    iset slot: Slot | slot.worker == worker && slot.job in jobs
  }

  /** Placing a matched slot once more changes nothing. */
  lemma PlacesOne(now: Table, before: Table, ws: Workspace, reached: iset<Slot>, slot: Slot)
    requires PlacedIn(now, before, ws, reached) && Matched(ws, slot)
    ensures PlacedIn(Apply(now, Upsert(slot, ws.versions(slot.job))), before, ws, reached + iset{slot})
  {
    var after := Apply(now, Upsert(slot, ws.versions(slot.job)));
    assert Row(now, slot) == if slot in reached then Placed(ws, slot, Row(before, slot)) else Row(before, slot);
    forall other
      ensures Row(after, other)
        == if other in reached + iset{slot} then Placed(ws, other, Row(before, other)) else Row(before, other)
    {
      assert other != slot ==> Row(after, other) == Row(now, other);
    }
  }

  method RemoveUnmatched(tx: Tx, worker: string, matched: seq<string>)
    modifies tx
    ensures RemovedFrom(tx.table, old(tx.table), iset slot: Slot | slot.worker == worker && slot.job !in matched)
  {
    ghost var begun := tx.table;
    var persisted := Enumerate(set slot | slot in tx.table && slot.worker == worker :: slot.job);
    assert forall j :: j in persisted <==> j in Elems(persisted);
    var toRemove := Difference(persisted, matched);
    for i := 0 to |toRemove|
      invariant RemovedFrom(tx.table, begun, JobsOn(worker, toRemove[..i]))
    {
      assert toRemove[..i + 1] == toRemove[..i] + [toRemove[i]];
      assert toRemove[i] in toRemove;
      var slot := Slot(worker, toRemove[i]);
      assert slot in begun && Row(begun, slot).Some?;
      RemovesOne(tx.table, begun, JobsOn(worker, toRemove[..i]), slot);
      assert JobsOn(worker, toRemove[..i + 1]) == JobsOn(worker, toRemove[..i]) + iset{slot};
      tx.table := tx.table[slot := tx.table[slot].(removed := true)];
    }
    assert toRemove[..|toRemove|] == toRemove;
    forall slot: Slot
      ensures Row(tx.table, slot)
        == if slot.worker == worker && slot.job !in matched then Removing(Row(begun, slot)) else Row(begun, slot)
    {
      assert slot == Slot(slot.worker, slot.job);
      assert Row(tx.table, slot) == if slot in JobsOn(worker, toRemove) then Removing(Row(begun, slot)) else Row(begun, slot);
    }
  }

  ghost predicate RemovedFrom(now: Table, begun: Table, gone: iset<Slot>) {
    forall slot :: Row(now, slot) == if slot in gone then Removing(Row(begun, slot)) else Row(begun, slot)
  }

  lemma RemovesOne(now: Table, begun: Table, gone: iset<Slot>, slot: Slot)
    requires RemovedFrom(now, begun, gone) && slot in begun
    ensures slot in now && RemovedFrom(now[slot := now[slot].(removed := true)], begun, gone + iset{slot})
  {
    assert Row(now, slot) == if slot in gone then Removing(Row(begun, slot)) else Row(begun, slot);
    var after := now[slot := now[slot].(removed := true)];
    forall other ensures Row(after, other)
      == if other in gone + iset{slot} then Removing(Row(begun, other)) else Row(begun, other)
    {
      assert other != slot ==> Row(after, other) == Row(now, other);
    }
  }

  ghost function RowsOf(workers: iset<string>): iset<Slot> {
    iset slot: Slot | slot.worker in workers
  }

  lemma PlacesWorker(
    now: Table, mid: Table, before: Table, ws: Workspace, workers: iset<string>, worker: string)
    requires worker in ws.workers && PlacedIn(mid, before, ws, RowsOf(workers) + JobsOn(worker, ws.matches(worker)))
    requires RemovedFrom(now, mid, iset slot: Slot | slot.worker == worker && slot.job !in ws.matches(worker))
    ensures PlacedIn(now, before, ws, RowsOf(workers + iset{worker}))
  {
    var matched := ws.matches(worker);
    forall slot: Slot
      ensures Row(now, slot)
        == if slot in RowsOf(workers + iset{worker}) then Placed(ws, slot, Row(before, slot)) else Row(before, slot)
    {
      var reached := RowsOf(workers) + JobsOn(worker, matched);
      assert Row(mid, slot) == if slot in reached then Placed(ws, slot, Row(before, slot)) else Row(before, slot);
      assert Row(now, slot)
        == if slot.worker == worker && slot.job !in matched then Removing(Row(mid, slot)) else Row(mid, slot);
    }
  }

  /** The worker loop, and the statement for the workers that are gone. */
  method PlaceAll(tx: Tx, ws: Workspace)
    modifies tx
    ensures forall slot :: Row(tx.table, slot) == Placed(ws, slot, Row(old(tx.table), slot))
  {
    ghost var before := tx.table;
    ghost var done: iset<string> := iset{};
    for i := 0 to |ws.workers|
      invariant forall w :: w in done <==> w in ws.workers[..i]
      invariant PlacedIn(tx.table, before, ws, RowsOf(done))
    {
      var worker := ws.workers[i];
      assert ws.workers[..i + 1] == ws.workers[..i] + [worker];
      UpsertMatched(tx, ws, worker, before, RowsOf(done));
      ghost var mid := tx.table;
      RemoveUnmatched(tx, worker, ws.matches(worker));
      PlacesWorker(tx.table, mid, before, ws, done, worker);
      done := done + iset{worker};
    }
    assert ws.workers[..|ws.workers|] == ws.workers;
    ghost var placed := tx.table;
    tx.table := map slot | slot in tx.table ::
      if slot.worker !in ws.workers then tx.table[slot].(removed := true) else tx.table[slot];
    forall slot ensures Row(tx.table, slot) == Placed(ws, slot, Row(before, slot)) {
      assert Row(placed, slot) == if slot in RowsOf(done) then Placed(ws, slot, Row(before, slot)) else Row(before, slot);
    }
  }

  /** `UPDATE allocations SET disabled = 1`, for the rows of a worker, of a job, or of both. */
  method DisableWhere(tx: Tx, worker: Option<string>, job: Option<string>)
    modifies tx
    ensures DisabledIn(tx.table, old(tx.table), iset slot | Names(worker, job, slot))
  {
    tx.table := map slot | slot in tx.table ::
      if Names(worker, job, slot) then tx.table[slot].(disabled := true) else tx.table[slot];
  }

  predicate Names(worker: Option<string>, job: Option<string>, slot: Slot) {
    (worker.Some? ==> slot.worker == worker.value) && (job.Some? ==> slot.job == job.value)
  }

  function Disabling(row: Option<Allocation>): Option<Allocation> {
    if row.Some? then Some(row.value.(disabled := true)) else None
  }

  ghost predicate DisabledIn(now: Table, begun: Table, off: iset<Slot>) {
    forall slot :: Row(now, slot) == if slot in off then Disabling(Row(begun, slot)) else Row(begun, slot)
  }

  method DisableListed(tx: Tx, d: DisableConfig)
    modifies tx
    ensures DisabledIn(tx.table, old(tx.table), iset slot | SwitchedOff(d, slot))
  {
    ghost var begun := tx.table;
    ghost var off: iset<Slot> := iset{};
    for i := 0 to |d.workers|
      invariant forall slot :: slot in off <==> slot.worker in d.workers[..i]
      invariant DisabledIn(tx.table, begun, off)
    {
      assert d.workers[..i + 1] == d.workers[..i] + [d.workers[i]];
      DisableWhere(tx, Some(d.workers[i]), None);
      off := off + iset slot: Slot | slot.worker == d.workers[i];
    }
    assert d.workers[..|d.workers|] == d.workers;
    var left := d.jobs.Keys;
    while left != {}
      invariant left <= d.jobs.Keys
      invariant forall slot :: slot in off <==> slot.worker in d.workers || (slot.job !in left && JobOff(d, slot))
      invariant DisabledIn(tx.table, begun, off)
      decreases left
    {
      var job :| job in left;
      ghost var more := iset slot: Slot | slot.job == job && JobOff(d, slot);
      DisableJob(tx, d, job, begun, off);
      left := left - {job};
      off := off + more;
    }
    assert forall slot :: slot in off <==> SwitchedOff(d, slot);
    assert off == iset slot | SwitchedOff(d, slot);
  }

  /** One entry of the configuration: the whole job, or its listed workers. */
  method DisableJob(tx: Tx, d: DisableConfig, job: string, ghost begun: Table, ghost off: iset<Slot>)
    requires job in d.jobs && DisabledIn(tx.table, begun, off)
    modifies tx
    ensures DisabledIn(tx.table, begun, off + iset slot: Slot | slot.job == job && JobOff(d, slot))
  {
    var workers := d.jobs[job];
    if |workers| == 0 {
      DisableWhere(tx, None, Some(job));
      return;
    }
    for i := 0 to |workers|
      invariant DisabledIn(tx.table, begun, off + iset slot: Slot | slot.job == job && slot.worker in workers[..i])
    {
      assert workers[..i + 1] == workers[..i] + [workers[i]];
      DisableWhere(tx, Some(workers[i]), Some(job));
    }
    assert workers[..|workers|] == workers;
  }

  function Actives(t: Table): set<Slot> {
    set slot | slot in t && Active(t[slot])
  }

  ghost predicate MarkedIn(now: Table, begun: Table, marked: set<Slot>) {
    forall slot ::
      Row(now, slot) == if slot in marked && slot in begun then Some(StartPendingRow(begun[slot])) else Row(begun, slot)
  }

  /** A row enabled again is to be started, whatever was promoted for it. */
  method MarkReenabledAllocations(tx: Tx, disabledBefore: set<Slot>)
    modifies tx
    ensures MarkedIn(tx.table, old(tx.table), set slot | slot in disabledBefore && slot in Actives(old(tx.table)))
  {
    ghost var begun := tx.table;
    if |disabledBefore| == 0 {
      return;
    }
    var rows := Enumerate(Actives(tx.table));
    assert forall slot :: slot in rows <==> slot in Elems(rows);
    for i := 0 to |rows|
      invariant MarkedIn(tx.table, begun, set slot | slot in rows[..i] && slot in disabledBefore)
    {
      assert rows[..i + 1] == rows[..i] + [rows[i]];
      assert rows[i] in rows && rows[i] !in rows[..i];
      if rows[i] !in disabledBefore {
        continue;
      }
      assert Row(tx.table, rows[i]) == Row(begun, rows[i]);
      tx.MarkAllocationStartPending(rows[i]);
    }
    assert rows[..|rows|] == rows;
    assert forall slot :: slot in rows <==> slot in Actives(begun);
  }

  method BuildAllocations(tx: Tx, ws: Workspace)
    modifies tx
    ensures Built(tx.table, old(tx.table), ws)
  {
    ghost var before := tx.table;
    var disabledBefore := LoadDisabledAllocations(tx);
    PlaceAll(tx, ws);
    ghost var placed := tx.table;
    DisableListed(tx, ws.disabled);
    ghost var switched := tx.table;
    MarkReenabledAllocations(tx, disabledBefore);
    forall slot ensures Row(tx.table, slot) == BuiltRow(ws, slot, Row(before, slot)) {
      assert Row(placed, slot) == Placed(ws, slot, Row(before, slot));
      assert Row(switched, slot)
        == if SwitchedOff(ws.disabled, slot) then Disabling(Row(placed, slot)) else Row(placed, slot);
    }
  }

  /** The waves of the jobs that have one; the rows of the other jobs keep theirs. */
  type Waves = map<string, int>

  function InWave(waves: Waves, slot: Slot, row: Option<Allocation>): Option<Allocation> {
    if row.Some? && slot.job in waves then Some(row.value.(deploymentSeq := waves[slot.job])) else row
  }

  method BuildDeploymentSequence(tx: Tx, waves: Waves)
    modifies tx
    ensures forall slot :: Row(tx.table, slot) == InWave(waves, slot, Row(old(tx.table), slot))
    ensures tx.table.Keys == old(tx.table).Keys
    ensures forall slot :: slot in tx.table ==>
      tx.table[slot] ==
        var a := old(tx.table)[slot]; if slot.job in waves then a.(deploymentSeq := waves[slot.job]) else a
  {
    tx.table := map slot | slot in tx.table ::
      if slot.job in waves then tx.table[slot].(deploymentSeq := waves[slot.job]) else tx.table[slot];
  }

  /* ---- what the next dry run plans for it ---- */

  /**
    After a build and the refresh of a dry run an active row is planned to start if and only if it has no promoted
    hash, or it was disabled, and not removed, when the build began.
   */
  lemma ReenabledIsStarted(
    ws: Workspace, slot: Slot, before: Option<Allocation>, tree: Tree, opts: DeployOptions, policy: JobPolicy)
    requires (before.Some? ==> AllocationTable.Sound(before.value)) && ContentHash(tree.hash)
    ensures var after := BuiltRow(ws, slot, before);
      after.Some? && Active(after.value) ==>
        (var now := RefreshRow(after.value, tree);
         && (PlanAllocation(slot.worker, now, opts, policy).plan.action == Start <==>
              before.None? || !HasPromoted(before.value) || WasDisabled(before))
         && (IsNew(now) <==> before.None? || !HasPromoted(before.value) || WasDisabled(before)))
  {
  }

  /**
    What a build leaves of a row, field by field: removed unless matched; disabled if listed, and also if it is removed
    and was disabled; placed anew with its target version if matched; its plan kept, but with nothing promoted where
    it is active now and was disabled and not removed before.
   */
  lemma BuiltIff(ws: Workspace, slot: Slot, before: Option<Allocation>)
    ensures var matched := slot.worker in ws.workers && slot.job in ws.matches(slot.worker);
      var d := ws.disabled;
      var listed := slot.worker in d.workers
        || (slot.job in d.jobs && (d.jobs[slot.job] == [] || slot.worker in d.jobs[slot.job]));
      var was := before.Some? && before.value.disabled;
      var plan := if before.Some? then before.value.plan else None;
      var cleared := matched && !listed && was && !before.value.removed && plan.Some?;
      BuiltRow(ws, slot, before) ==
        if !matched && before.None? then None
        else Some(Allocation(
          !matched, listed || (!matched && was),
          if matched then 0 else before.value.deploymentSeq,
          if matched then Some(NormalizeDeployVersion(ws.versions(slot.job))) else before.value.newVersion,
          if cleared then Some(plan.value.(previousHash := None, previousFiles := None)) else plan))
  {
  }

  predicate HasPromoted(a: Allocation) {
    a.plan.Some? && a.plan.value.previousHash.Some?
  }
}
