/** Builds, deploys and collections over time, and whether what counts as deployed was stopped and never started. */
module Lifecycle {
  import opened AllocationTable
  import opened Attempts
  import opened Build
  import opened DeployProgress
  import opened DeployTheorems
  import opened DeployWaves
  import opened ExecutorChoice
  import opened JobDeploy
  import opened Options
  import opened Reconcile
  import opened RolloutExecutor
  import opened RolloutPlanner
  import opened RolloutPolicy
  import opened RolloutTrace
  import opened Seqs

  /** The table, and the allocations that were stopped and not started by a successful deploy since. */
  datatype World = World(table: Table, down: iset<Slot>)

  const EMPTY := World(map[], iset{})

  /** What can happen: a build, a run that commits, a run that stopped some and was rolled back, a collection. */
  datatype Happening =
    | Builds(ws: Workspace, waves: Waves)
    | Deploys(setup: Setup, opts: DeployOptions, progress: Progress, attempts: seq<Attempt>)
    | Aborts(stopped: iset<Slot>, setup: Setup, opts: DeployOptions, attempts: seq<Attempt>)
    | Collects

  /** The allocations that the reconcile pass of a run stops. */
  ghost function StoppedBy(t: Table): iset<Slot> {
    iset slot | slot in t && IsStopped(t[slot]) && WasDeployed(t[slot])
  }

  /** The attempt started the worker: by its own call, or by the job's own commands. */
  predicate StartsWorker(a: Attempt, s: Setup, opts: DeployOptions, worker: string) {
    || (!opts.syncOnly && s.commands(a.job) > 0)
    || Call(worker, Start) in Begun(a.part) || Call(worker, Restart) in Begun(a.part)
  }

  ghost function StartedBy(s: Setup, opts: DeployOptions, attempts: seq<Attempt>): iset<Slot> {
    iset slot: Slot | exists a :: a in attempts && a.deployed && a.job == slot.job && StartsWorker(a, s, opts, slot.worker)
  }

  ghost predicate Step(w: World, h: Happening, next: World) {
    match h
    case Builds(ws, waves) =>
      && next.down == w.down
      && forall slot :: Row(next.table, slot) == InWave(waves, slot, BuiltRow(ws, slot, Row(w.table, slot)))
    case Deploys(s, opts, p, attempts) =>
      && (forall j :: NoDup(s.rollouts(j).catalog))
      && Committed(w.table, next.table, s, opts.force, p)
      && Recorded(attempts, Reconciled(w.table), s, opts) && p.deployed == DeployedBy(attempts)
      && next.down == (w.down + StoppedBy(w.table)) - StartedBy(s, opts, attempts)
    case Aborts(stopped, s, opts, attempts) =>
      && next.table == w.table && stopped <= StoppedBy(w.table)
      && Recorded(attempts, Reconciled(w.table), s, opts)
      && next.down == (w.down + stopped) - StartedBy(s, opts, attempts)
    case Collects =>
      next == World(map slot | slot in w.table && !w.table[slot].removed :: w.table[slot], w.down)
  }

  /** An allocation that counts as deployed though it was stopped and not started since. */
  ghost predicate Lapsed(w: World, slot: Slot) {
    slot in w.table && Active(w.table[slot]) && HasPromoted(w.table[slot]) && slot in w.down
  }

  ghost predicate NoLapse(w: World) {
    forall slot :: !Lapsed(w, slot)
  }

  /** The build takes back an allocation that was stopped and removed before any deploy dropped its hash. */
  ghost predicate Rejoins(w: World, h: Happening, slot: Slot) {
    && h.Builds? && slot in w.table && w.table[slot].removed && HasPromoted(w.table[slot]) && slot in w.down
    && Matched(h.ws, slot) && !SwitchedOff(h.ws.disabled, slot)
  }

  lemma BuildLapsesIff(w: World, h: Happening, next: World, slot: Slot)
    requires NoLapse(w) && h.Builds? && Step(w, h, next)
    ensures Lapsed(next, slot) <==> Rejoins(w, h, slot)
  {
    assert !Lapsed(w, slot);
    assert Row(next.table, slot) == InWave(h.waves, slot, BuiltRow(h.ws, slot, Row(w.table, slot)));
  }

  /** A committed run: what is active and was promoted by it was started by it. */
  lemma {:induction false} DeployKeeps(w: World, h: Happening, next: World, slot: Slot)
    requires NoLapse(w) && h.Deploys? && Step(w, h, next)
    ensures !Lapsed(next, slot)
  {
    assert !Lapsed(w, slot);
    if Lapsed(next, slot) {
      RunKeepsShape(w.table, next.table, h.setup, h.opts.force, h.progress);
      assert slot in w.table && Active(w.table[slot]) && !HasPromoted(w.table[slot]);
      NewlyPromoted(w.table, next.table, h.setup, h.opts.force, h.progress, slot);
      PromotedIsStarted(h.attempts, w.table, h.setup, h.opts, slot);
      assert false;
    }
  }

  lemma {:induction false} PromotedIsStarted(attempts: seq<Attempt>, begun: Table, s: Setup, opts: DeployOptions, slot: Slot)
    requires Recorded(attempts, Reconciled(begun), s, opts) && slot.job in DeployedBy(attempts)
    requires NoDup(s.rollouts(slot.job).catalog)
    requires slot in begun && Active(begun[slot]) && !HasPromoted(begun[slot])
    ensures slot in StartedBy(s, opts, attempts)
  {
    var i := FirstDeploy(attempts, slot.job);
    FirstDeployStarts(attempts[i], begun, s, opts, DeployedBy(attempts[..i]), slot);
    assert attempts[i] in attempts;
  }

  lemma NewlyPromoted(before: Table, after: Table, s: Setup, force: bool, p: Progress, slot: Slot)
    requires Committed(before, after, s, force, p) && slot in before && Active(before[slot]) && !HasPromoted(before[slot])
    requires slot in after && HasPromoted(after[slot])
    ensures slot.job in p.deployed
  {
    assert slot in Reconciled(before) && Reconciled(before)[slot] == before[slot];
  }

  /** The first deploy of a job starts every active allocation of it that has no promoted hash. */
  lemma {:induction false} FirstDeployStarts(
    a: Attempt, begun: Table, s: Setup, opts: DeployOptions, before: set<string>, slot: Slot)
    requires SoundAttempt(a, Reconciled(begun), s, opts, before) && a.deployed && a.job !in before
    requires NoDup(s.rollouts(a.job).catalog)
    requires slot in begun && slot.job == a.job && Active(begun[slot]) && !HasPromoted(begun[slot])
    ensures StartsWorker(a, s, opts, slot.worker)
  {
    AttemptCalls(a, begun, s, opts, before);
    var rows := RowsFor(begun, s, a.job, false);
    assert slot in rows && IsNew(rows[slot]);
    var r := s.rollouts(a.job);
    WantedRows(rows, a.job, opts, r.policy, slot.worker, Start);
    assert slot == Slot(slot.worker, a.job);
    assert slot in RowsFor(Reconciled(begun), s, a.job, false);
    assert slot in a.table && IsNew(a.table[slot]);
    assert slot.worker in Workers(a.table, a.job, IsNew);
  }

  lemma AbortKeeps(w: World, h: Happening, next: World, slot: Slot)
    requires NoLapse(w) && h.Aborts? && Step(w, h, next)
    ensures !Lapsed(next, slot)
  {
    assert !Lapsed(w, slot);
  }

  lemma StepLapsesIff(w: World, h: Happening, next: World, slot: Slot)
    requires NoLapse(w) && Step(w, h, next)
    ensures Lapsed(next, slot) <==> Rejoins(w, h, slot)
  {
    match h
    case Builds(_, _) => BuildLapsesIff(w, h, next, slot);
    case Deploys(_, _, _, _) => DeployKeeps(w, h, next, slot);
    case Aborts(_, _, _, _) => AbortKeeps(w, h, next, slot);
    case Collects => assert !Lapsed(w, slot);
  }

  lemma StepKeepsNoLapse(w: World, h: Happening, next: World)
    requires NoLapse(w) && Step(w, h, next) && forall slot :: !Rejoins(w, h, slot)
    ensures NoLapse(next)
  {
    forall slot ensures !Lapsed(next, slot) {
      StepLapsesIff(w, h, next, slot);
    }
  }

  /** A history: the worlds before, between and after what happened. */
  ghost predicate History(worlds: seq<World>, happened: seq<Happening>) {
    && |worlds| == |happened| + 1
    && forall i :: 0 <= i < |happened| ==> Step(worlds[i], happened[i], worlds[i + 1])
  }

  /**
    Over any history of builds, deploys, rolled back runs and collections: no active allocation ever counts as
    deployed while it is stopped, if and only if no build takes back a stopped allocation that is still removed.
   */
  lemma {:induction false} HistoryLapsesIff(worlds: seq<World>, happened: seq<Happening>)
    requires History(worlds, happened) && NoLapse(worlds[0])
    ensures (forall i :: 0 <= i < |worlds| ==> NoLapse(worlds[i])) <==>
            (forall i, slot :: 0 <= i < |happened| ==> !Rejoins(worlds[i], happened[i], slot))
  {
    if forall i :: 0 <= i < |worlds| ==> NoLapse(worlds[i]) {
      forall i, slot | 0 <= i < |happened| ensures !Rejoins(worlds[i], happened[i], slot) {
        StepLapsesIff(worlds[i], happened[i], worlds[i + 1], slot);
        assert NoLapse(worlds[i + 1]);
      }
    }
    if forall i, slot :: 0 <= i < |happened| ==> !Rejoins(worlds[i], happened[i], slot) {
      for n := 0 to |happened|
        invariant forall i :: 0 <= i <= n ==> NoLapse(worlds[i])
      {
        StepKeepsNoLapse(worlds[n], happened[n], worlds[n + 1]);
      }
    }
  }

  /* ---- it happens ---- */

  /** The row in its stages: built, deployed, disabled, and no longer matched. */
  function BuiltNew(): Allocation {
    Allocation(false, false, 0, Some("1.0"), None)
  }

  function DisabledRow(tree: Tree): Allocation {
    PromotedRow(tree).(disabled := true)
  }

  function LeftRow(tree: Tree): Allocation {
    DisabledRow(tree).(removed := true)
  }

  function On(slot: Slot, matched: bool, off: bool): Workspace {
    Workspace(
      [slot.worker], _ => if matched then [slot.job] else [], _ => "1.0",
      DisableConfig(if off then [slot.worker] else [], map[]))
  }

  /** A job with one job_control command. */
  function OneJob(slot: Slot, tree: Tree, r: Rollout): Setup {
    Setup({slot.job}, [], _ => tree, _ => r, _ => 1)
  }

  lemma BuildsTo(slot: Slot, before: Option<Allocation>, after: Allocation, down: iset<Slot>, matched: bool, off: bool)
    requires BuiltRow(On(slot, matched, off), slot, before) == Some(after)
    ensures var t := if before.Some? then map[slot := before.value] else map[];
      Step(World(t, down), Builds(On(slot, matched, off), map[]), World(map[slot := after], down))
  {
    var ws := On(slot, matched, off);
    var t: Table := if before.Some? then map[slot := before.value] else map[];
    forall other
      ensures Row(map[slot := after], other) == InWave(map[], other, BuiltRow(ws, other, Row(t, other)))
    {
      assert other != slot ==> other !in t && !Matched(ws, other) by {
        if Matched(ws, other) {
          assert other.worker == slot.worker && other.job == slot.job;
        }
      }
    }
  }

  function FirstAttempt(slot: Slot, tree: Tree): Attempt {
    Attempt(slot.job, 0, map[slot := RefreshRow(BuiltNew(), tree)], [], ControlSteps(1, [slot.worker], []), true, true)
  }

  lemma FirstDeployHappens(slot: Slot, tree: Tree, r: Rollout)
    requires NoDup(r.catalog)
    ensures Step(
      World(map[slot := BuiltNew()], iset{}),
      Deploys(
        OneJob(slot, tree, r), DeployOptions(false, false), Progress({slot.job}, {slot.job}, {slot.job}),
        [FirstAttempt(slot, tree)]),
      World(map[slot := PromotedRow(tree)], iset{}))
  {
    var t: Table := map[slot := BuiltNew()];
    var s, opts, a := OneJob(slot, tree, r), DeployOptions(false, false), FirstAttempt(slot, tree);
    var job := {slot.job};
    FirstRows(slot, tree, r);
    FirstAttemptIsSound(slot, tree, r);
    assert [a][..0] == [] && DeployedBy([]) == {};
    assert DeployedBy([a]) == job;
    assert StoppedBy(t) == iset{};
  }

  lemma FirstRows(slot: Slot, tree: Tree, r: Rollout)
    ensures var t, trees, job := map[slot := BuiltNew()], OneJob(slot, tree, r).trees, {slot.job};
      && Reconciled(t) == t && NeedsAfterRefresh(t, trees, slot.job)
      && DeployProgress.Outcome(t, trees, job, job) == map[slot := PromotedRow(tree)]
  {
    var t: Table := map[slot := BuiltNew()];
    var now := RefreshJob(t, slot.job, OneJob(slot, tree, r).trees);
    assert slot == Slot(slot.worker, slot.job) && slot in now && RowNeeds(now[slot]);
  }

  lemma FirstAttemptIsSound(slot: Slot, tree: Tree, r: Rollout)
    ensures SoundAttempt(
      FirstAttempt(slot, tree), map[slot := BuiltNew()], OneJob(slot, tree, r), DeployOptions(false, false), {})
  {
    var t: Table := map[slot := BuiltNew()];
    var s, a := OneJob(slot, tree, r), FirstAttempt(slot, tree);
    assert RowsFor(t, s, slot.job, false) == a.table;
    assert slot == Slot(slot.worker, slot.job) && RowNeeds(a.table[slot]);
    assert NeedsRollout(a.table, slot.job);
    assert forall w :: Slot(w, slot.job) in a.table ==> Slot(w, slot.job) == slot;
    assert Lists(a.table, slot.job, false, [slot.worker], []);
    assert RunsThrough(ControlSteps(1, [slot.worker], []), a.part, true);
    assert slot.job in JobsAt(t, s.jobs, 0);
  }

  /** The run after the allocation was disabled: it is stopped, and nothing is deployed. */
  lemma DisablingDeployHappens(slot: Slot, tree: Tree, r: Rollout)
    requires NoDup(r.catalog) && ContentHash(tree.hash)
    ensures Step(
      World(map[slot := DisabledRow(tree)], iset{}),
      Deploys(OneJob(slot, tree, r), DeployOptions(false, false), Progress({slot.job}, {}, {}), []),
      World(map[slot := DisabledRow(tree)], iset{slot}))
  {
    var t: Table := map[slot := DisabledRow(tree)];
    var s := OneJob(slot, tree, r);
    assert Reconciled(t) == t;
    assert RefreshJob(t, slot.job, s.trees) == t;
    assert !NeedsAfterRefresh(t, s.trees, slot.job);
    assert DeployProgress.Outcome(t, s.trees, {slot.job}, {}) == t;
    assert DeployedBy([]) == {};
    assert StoppedBy(t) == iset{slot};
    assert StartedBy(s, DeployOptions(false, false), []) == iset{};
    assert slot.job in Visited(t, s);
  }

  /**
    An allocation is deployed, disabled and stopped, loses its label, and is matched and enabled again before the next
    deploy. It then counts as deployed: no deploy starts it, and its status is promoted.
   */
  lemma ReenabledIsMissed(slot: Slot, tree: Tree, r: Rollout) returns (worlds: seq<World>, happened: seq<Happening>)
    requires NoDup(r.catalog) && ContentHash(tree.hash)
    ensures History(worlds, happened) && worlds[0] == EMPTY && |happened| == 6
    ensures Lapsed(worlds[6], slot)
    ensures var now := RefreshRow(worlds[6].table[slot], tree); !RowNeeds(now) && StatusOf(now) == Promoted
  {
    var no: iset<Slot>, down := iset{}, iset{slot};
    worlds, happened := DeployedThenDisabled(slot, tree, r);
    DisablingDeployHappens(slot, tree, r);
    worlds, happened := Then(
      worlds, happened, Deploys(OneJob(slot, tree, r), DeployOptions(false, false), Progress({slot.job}, {}, {}), []),
      World(map[slot := DisabledRow(tree)], down));
    ShortVersion("1.0");
    BuildsTo(slot, Some(DisabledRow(tree)), LeftRow(tree), down, false, true);
    worlds, happened := Then(
      worlds, happened, Builds(On(slot, false, true), map[]), World(map[slot := LeftRow(tree)], down));
    BuildsTo(slot, Some(LeftRow(tree)), PromotedRow(tree), down, true, false);
    worlds, happened := Then(
      worlds, happened, Builds(On(slot, true, false), map[]), World(map[slot := PromotedRow(tree)], down));
    CountsAsDeployed(slot, tree, worlds[6]);
  }

  lemma CountsAsDeployed(slot: Slot, tree: Tree, w: World)
    requires ContentHash(tree.hash) && w == World(map[slot := PromotedRow(tree)], iset{slot})
    ensures Lapsed(w, slot)
    ensures var now := RefreshRow(w.table[slot], tree); !RowNeeds(now) && StatusOf(now) == Promoted
  {
  }

  /** One more thing happens. */
  lemma {:induction false} Then(worlds: seq<World>, happened: seq<Happening>, h: Happening, w: World)
    returns (more: seq<World>, longer: seq<Happening>)
    requires History(worlds, happened) && Step(worlds[|happened|], h, w)
    ensures History(more, longer) && |longer| == |happened| + 1
    ensures more[0] == worlds[0] && more[|longer|] == w
  {
    more, longer := worlds + [w], happened + [h];
    forall i | 0 <= i < |longer| ensures Step(more[i], longer[i], more[i + 1]) {
      if i < |happened| {
        assert more[i] == worlds[i] && more[i + 1] == worlds[i + 1] && longer[i] == happened[i];
      }
    }
  }

  lemma DeployedThenDisabled(slot: Slot, tree: Tree, r: Rollout) returns (worlds: seq<World>, happened: seq<Happening>)
    requires NoDup(r.catalog) && ContentHash(tree.hash)
    ensures History(worlds, happened) && worlds[0] == EMPTY && |happened| == 3
    ensures worlds[3] == World(map[slot := DisabledRow(tree)], iset{})
  {
    var no: iset<Slot> := iset{};
    worlds, happened := [EMPTY], [];
    ShortVersion("1.0");
    BuildsTo(slot, None, BuiltNew(), no, true, false);
    worlds, happened := Then(
      worlds, happened, Builds(On(slot, true, false), map[]), World(map[slot := BuiltNew()], no));
    FirstDeployHappens(slot, tree, r);
    worlds, happened := Then(
      worlds, happened,
      Deploys(
        OneJob(slot, tree, r), DeployOptions(false, false), Progress({slot.job}, {slot.job}, {slot.job}),
        [FirstAttempt(slot, tree)]),
      World(map[slot := PromotedRow(tree)], no));
    BuildsTo(slot, Some(PromotedRow(tree)), DisabledRow(tree), no, true, true);
    worlds, happened := Then(
      worlds, happened, Builds(On(slot, true, true), map[]), World(map[slot := DisabledRow(tree)], no));
  }
}
