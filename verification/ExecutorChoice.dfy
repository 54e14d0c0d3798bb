/** What the executor does with each allocation, in its two implementations, against what the planner announced. */
module ExecutorChoice {
  import opened AllocationTable
  import opened FileManifests
  import opened Options
  import opened RolloutPlanner
  import opened RolloutPolicy
  import opened Seqs
  import opened Sets

  /* ---- who is restarted ---- */

  predicate NeedsRestart(a: Allocation, force: bool) {
    Active(a) && !IsNew(a) && (force || ContentChanged(a) || VersionDiffers(a))
  }

  method AllocationsNeedingRestart(tx: Tx, job: string, force: bool) returns (workers: seq<string>)
    ensures NoDup(workers)
    ensures forall w :: w in workers <==> Slot(w, job) in tx.table && NeedsRestart(tx.table[Slot(w, job)], force)
  {
    var newAllocations := tx.Select(job, IsNew);
    if !force {
      var updated := tx.Select(job, IsUpdated);
      var versionPending := tx.Select(job, IsVersionPending);
      var candidates := Unique(updated + versionPending);
      workers := Difference(candidates, newAllocations);
    } else {
      var active := tx.Select(job, Active);
      workers := Difference(active, newAllocations);
    }
  }

  /* ---- why, and with which action ---- */

  predicate HashChanged(a: Allocation) {
    var h := GetAllocationHash(a);
    h.found && h.previous != "" && h.previous != h.current
  }

  ghost function ExecutorAction(a: Allocation, opts: DeployOptions, policy: JobPolicy): Action {
    Lifecycle(a, opts, policy, HashChanged(a), AllocationNeedsVersionRollout(a) && !HashChanged(a))
  }

  datatype Reason = Reason(hashChanged: bool, versionOnly: bool)

  function AllocationRolloutReason(a: Allocation, force: bool): Reason {
    var h := GetAllocationHash(a);
    if h.found && h.previous != "" && h.current != h.previous then Reason(true, false)
    else if AllocationNeedsVersionRollout(a) then Reason(false, true)
    else if force then Reason(false, false)
    else Reason(false, false)
  }

  /** The workers of a list whose action is the given one, in the list's order. */
  ghost function Picks(
    workers: seq<string>, t: Table, job: string, opts: DeployOptions, policy: JobPolicy, action: Action): seq<string>
    requires forall w :: w in workers ==> Slot(w, job) in t
  {
    if workers == [] then []
    else
      var front := Picks(workers[..|workers| - 1], t, job, opts, policy, action);
      var w := workers[|workers| - 1];
      if ExecutorAction(t[Slot(w, job)], opts, policy) == action then front + [w] else front
  }

  lemma {:induction false} PicksSpec(
    workers: seq<string>, t: Table, job: string, opts: DeployOptions, policy: JobPolicy, action: Action)
    requires forall w :: w in workers ==> Slot(w, job) in t
    ensures forall w :: w in Picks(workers, t, job, opts, policy, action) <==>
      w in workers && ExecutorAction(t[Slot(w, job)], opts, policy) == action
    ensures NoDup(workers) ==> NoDup(Picks(workers, t, job, opts, policy, action))
  {
    if workers != [] {
      var front, last := workers[..|workers| - 1], workers[|workers| - 1];
      PicksSpec(front, t, job, opts, policy, action);
      assert workers == front + [last];
    }
  }

  lemma {:induction false} PicksKeepOrder(
    workers: seq<string>, t: Table, job: string, opts: DeployOptions, policy: JobPolicy, action: Action)
    requires forall w :: w in workers ==> Slot(w, job) in t
    ensures Sublist(Picks(workers, t, job, opts, policy, action), workers)
  {
    if workers != [] {
      var front, last := workers[..|workers| - 1], workers[|workers| - 1];
      assert workers == front + [last];
      PicksKeepOrder(front, t, job, opts, policy, action);
      PicksSpec(front, t, job, opts, policy, action);
      KeepsOrder(Picks(front, t, job, opts, policy, action), front, last);
    }
  }

  /** The executor's own loop: two lists, restarts and reloads, synced workers in neither. */
  method SplitUpdated(tx: Tx, job: string, updated: seq<string>, opts: DeployOptions, policy: JobPolicy)
    returns (restart: seq<string>, reload: seq<string>)
    requires forall w :: w in updated ==> Slot(w, job) in tx.table
    ensures restart == Picks(updated, tx.table, job, opts, policy, Restart)
    ensures reload == Picks(updated, tx.table, job, opts, policy, Reload)
  {
    restart, reload := [], [];
    for i := 0 to |updated|
      invariant forall w :: w in updated[..i] ==> Slot(w, job) in tx.table
      invariant restart == Picks(updated[..i], tx.table, job, opts, policy, Restart)
      invariant reload == Picks(updated[..i], tx.table, job, opts, policy, Reload)
    {
      assert updated[..i + 1][..i] == updated[..i];
      assert updated[i] in updated;
      var a := tx.table[Slot(updated[i], job)];
      var hashChanged := HashChanged(a);
      var versionOnly := AllocationNeedsVersionRollout(a) && !hashChanged;
      var action, _ := ResolveUpdateAction(
        opts.syncOnly, policy.policy, policy.matcher, policy.globs, UpdateOf(a, hashChanged, versionOnly));
      assert action == ExecutorAction(a, opts, policy) && action in {Sync, Restart, Reload};
      if action != Sync {
        if action == Restart {
          restart := restart + [updated[i]];
        } else {
          reload := reload + [updated[i]];
        }
      }
    }
    assert updated[..|updated|] == updated;
  }

  /** The second implementation's loop: lists filed under the action. */
  method GroupByAction(tx: Tx, job: string, updated: seq<string>, opts: DeployOptions, policy: JobPolicy)
    returns (byAction: map<Action, seq<string>>)
    requires forall w :: w in updated ==> Slot(w, job) in tx.table
    ensures byAction.Keys == {Restart, Reload}
    ensures byAction[Restart] == Picks(updated, tx.table, job, opts, policy, Restart)
    ensures byAction[Reload] == Picks(updated, tx.table, job, opts, policy, Reload)
  {
    byAction := map[Restart := [], Reload := []];
    for i := 0 to |updated|
      invariant forall w :: w in updated[..i] ==> Slot(w, job) in tx.table
      invariant byAction.Keys == {Restart, Reload}
      invariant byAction[Restart] == Picks(updated[..i], tx.table, job, opts, policy, Restart)
      invariant byAction[Reload] == Picks(updated[..i], tx.table, job, opts, policy, Reload)
    {
      assert updated[..i + 1][..i] == updated[..i];
      assert updated[i] in updated;
      var a := tx.table[Slot(updated[i], job)];
      var reason := AllocationRolloutReason(a, opts.force);
      var action, _ := ResolveAllocationLifecycle(a, opts, policy, reason.hashChanged, reason.versionOnly);
      if action != Sync {
        byAction := byAction[action := byAction[action] + [updated[i]]];
      }
    }
    assert updated[..|updated|] == updated;
  }

  /* ---- the planner's announcement ---- */

  /** The lifecycle command a deploy sends to the worker of a row, if any. */
  ghost function Command(a: Allocation, opts: DeployOptions, policy: JobPolicy): Option<Action> {
    if IsNew(a) then Some(Start)
    else if !NeedsRestart(a, opts.force) then None
    else
      var action := ExecutorAction(a, opts, policy);
      if action == Sync then None else Some(action)
  }

  /** The lifecycle command the dry run announces: start, restart or reload; sync and skip send nothing. */
  ghost function PlannedCommand(w: string, a: Allocation, opts: DeployOptions, policy: JobPolicy): Option<Action> {
    var action := PlanAllocation(w, a, opts, policy).plan.action;
    if a.disabled || action == Sync || action == Skip then None else Some(action)
  }

  /**
    A forced restart of an allocation that only has a new version: the planner asks the policy about its files,
    the executor says that only the version changed.
   */
  ghost predicate ForcedVersionOnly(a: Allocation, opts: DeployOptions, policy: JobPolicy) {
    && opts.force && !opts.syncOnly && policy.policy == RESTART_POLICY_RELOAD
    && a.plan.Some? && a.plan.value.previousHash.Some? && !ContentChanged(a) && VersionDiffers(a)
    && Triggered(policy.matcher, policy.globs, UpdateOf(a, false, true))
  }

  /** The dry run announces the command the executor sends, except in that one case, where it never does. */
  lemma CommandMatchesPlan(w: string, a: Allocation, opts: DeployOptions, policy: JobPolicy)
    requires Sound(a) && Active(a) && a.plan.Some?
    ensures Command(a, opts, policy) == PlannedCommand(w, a, opts, policy) <==> !ForcedVersionOnly(a, opts, policy)
    ensures ForcedVersionOnly(a, opts, policy) ==>
      PlannedCommand(w, a, opts, policy) == Some(Restart) && Command(a, opts, policy) == Some(Reload)
  {
  }

  /**
    The case exists: version 1.0 of a job deployed with a file "a", then version 2.0 that renames it to "b". The
    statements that lead there are the build's, the deploy's and the build's again, and the refresh of a dry run.
   */
  lemma ForcedVersionOnlyExample(slot: Slot, digest: string -> string) returns (ops: seq<Op>)
    requires ContentHash(TreeOf(map["a" := "x"], digest).hash)
    ensures var policy := JobPolicy(RESTART_POLICY_RELOAD, (g, path) => g == path, ["b"]);
      Legal(ops) && slot in Run(map[], ops) && ForcedVersionOnly(Run(map[], ops)[slot], DeployOptions(true, false), policy)
  {
    var first, second := TreeOf(map["a" := "x"], digest), TreeOf(map["b" := "x"], digest);
    RenameIsNotSeen("a", "b", "x", digest);
    var built := DeployedExample(slot, first);
    ops := built + [SetVersion(slot, "2.0")] + [Refresh(slot, second)];
    RunSnoc(map[], built, SetVersion(slot, "2.0"));
    RunSnoc(map[], built + [SetVersion(slot, "2.0")], Refresh(slot, second));
    Rebuilt(slot, first, second);
    RenamedTriggers(RebuiltRow(first, second));
  }

  /** The row of an allocation deployed with version 1.0. */
  function PromotedRow(tree: Tree): Allocation {
    var plan := Plan(Some(tree.hash), Some(tree.hash), Some(tree.files), Some(tree.files), Some("1.0"));
    Allocation(false, false, 0, Some("1.0"), Some(plan))
  }

  /** That row with version 2.0 and another tree staged. */
  function RebuiltRow(first: Tree, second: Tree): Allocation {
    var plan := Plan(Some(second.hash), Some(first.hash), Some(second.files), Some(first.files), Some("1.0"));
    Allocation(false, false, 0, Some("2.0"), Some(plan))
  }

  lemma Rebuilt(slot: Slot, first: Tree, second: Tree)
    ensures Apply(Apply(map[slot := PromotedRow(first)], SetVersion(slot, "2.0")), Refresh(slot, second))
         == map[slot := RebuiltRow(first, second)]
  {
    ShortVersion("2.0");
  }

  lemma DeployedExample(slot: Slot, tree: Tree) returns (ops: seq<Op>)
    requires ContentHash(tree.hash)
    ensures Legal(ops) && Run(map[], ops) == map[slot := PromotedRow(tree)]
  {
    ShortVersion("1.0");
    ops := RunOf3(map[], Upsert(slot, "1.0"), Refresh(slot, tree), PromoteState(slot));
  }

  lemma RunOf3(t: Table, first: Op, second: Op, third: Op) returns (ops: seq<Op>)
    ensures ops == [first, second, third] && Run(t, ops) == Apply(Apply(Apply(t, first), second), third)
  {
    RunSnoc(t, [], first);
    RunSnoc(t, [] + [first], second);
    RunSnoc(t, [] + [first] + [second], third);
    ops := [] + [first] + [second] + [third];
  }

  lemma ShortVersion(v: string)
    requires |v| == 3 && '0' <= v[0] <= '9' && '0' <= v[2] <= '9'
    ensures NormalizeDeployVersion(v) == v
  {
    NormalizedIsNormal(v);
  }

  lemma RenamedTriggers(a: Allocation)
    requires a.plan.Some? && a.plan.value.previousFiles == Some(map["a" := "x"])
    requires a.plan.value.currentFiles == Some(map["b" := "x"])
    ensures Triggered((g: string, path: string) => g == path, ["b"], UpdateOf(a, false, true))
  {
    var matcher, u := (g: string, path: string) => g == path, UpdateOf(a, false, true);
    assert "b" in ["b"] && matcher("b", "b");
    assert Differs(u.previousFiles, u.currentFiles, "b") && Selected(matcher, ["b"], "b");
  }
}
