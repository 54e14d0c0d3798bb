/**
  Four procedures that decide what an allocation needs: the rollout check, the dry-run planner, the executor's two
  selections, and the status column of the deployments table. They agree on every reachable row.
 */
module RolloutPlanner {
  import opened AllocationTable
  import opened FileManifests
  import opened RolloutPolicy
  import opened Seqs

  datatype DeployOptions = DeployOptions(force: bool, syncOnly: bool)

  datatype JobPolicy = JobPolicy(policy: string, matcher: Matcher, globs: seq<string>)

  /* ---- the rollout check ---- */

  /** A non-removed row that keeps its job from being skipped. */
  predicate RowNeeds(a: Allocation) {
    !a.removed && (a.plan.None? || IsNew(a) || ContentChanged(a) || VersionDiffers(a))
  }

  ghost predicate NeedsRollout(t: Table, job: string) {
    exists w :: Slot(w, job) in t && RowNeeds(t[Slot(w, job)])
  }

  method JobNeedsRollout(tx: Tx, job: string) returns (needs: bool)
    ensures needs <==> NeedsRollout(tx.table, job)
  {
    var workers := tx.Select(job, NonRemoved);
    for i := 0 to |workers|
      invariant forall j :: 0 <= j < i ==> tx.table[Slot(workers[j], job)].plan.Some?
    {
      assert workers[i] in workers;
      if tx.table[Slot(workers[i], job)].plan.None? {
        return true;
      }
    }
    var newAllocations := tx.Select(job, IsNew);
    if |newAllocations| > 0 {
      assert newAllocations[0] in newAllocations;
      return true;
    }
    var updated := tx.Select(job, IsUpdatedNonRemoved);
    if |updated| > 0 {
      assert updated[0] in updated;
      return true;
    }
    var versionPending := tx.Select(job, IsVersionPendingNonRemoved);
    needs := |versionPending| > 0;
    if needs {
      assert versionPending[0] in versionPending;
    } else {
      forall w | Slot(w, job) in tx.table ensures !RowNeeds(tx.table[Slot(w, job)]) {
        assert w in workers || w !in workers;
        assert w !in newAllocations && w !in updated && w !in versionPending;
      }
    }
  }

  /* ---- the planner ---- */

  datatype AllocationPlan = AllocationPlan(
    worker: string, action: Action, previousHash: string, currentHash: string, matchedPaths: seq<string>)

  datatype Verdict = Verdict(plan: AllocationPlan, needs: bool)

  /** What the policy sees when it is asked about a row. */
  function UpdateOf(a: Allocation, hashChanged: bool, versionOnly: bool): Update {
    match a.plan
    case None => Update(map[], map[], hashChanged, versionOnly, true)
    case Some(p) =>
      Update(
        if p.previousFiles.Some? then p.previousFiles.value else map[],
        if p.currentFiles.Some? then p.currentFiles.value else map[],
        hashChanged, versionOnly, p.previousFiles.None?)
  }

  ghost function Lifecycle(
    a: Allocation, opts: DeployOptions, policy: JobPolicy, hashChanged: bool, versionOnly: bool): Action
  {
    UpdateAction(opts.syncOnly, policy.policy, policy.matcher, policy.globs, UpdateOf(a, hashChanged, versionOnly))
  }

  ghost function LifecyclePaths(
    a: Allocation, opts: DeployOptions, policy: JobPolicy, hashChanged: bool, versionOnly: bool): seq<string>
  {
    MatchedPaths(opts.syncOnly, policy.policy, policy.matcher, policy.globs, UpdateOf(a, hashChanged, versionOnly))
  }

  /** The plan of an updated row, with the action its policy gives for this reason and the paths that decided it. */
  ghost function PlanUpdated(
    w: string, a: Allocation, opts: DeployOptions, policy: JobPolicy, hashChanged: bool, versionOnly: bool): Verdict
  {
    var h := GetAllocationHash(a);
    Verdict(
      AllocationPlan(
        w, Lifecycle(a, opts, policy, hashChanged, versionOnly), h.previous, h.current,
        LifecyclePaths(a, opts, policy, hashChanged, versionOnly)),
      true)
  }

  ghost function PlanActiveAllocation(w: string, a: Allocation, opts: DeployOptions, policy: JobPolicy): Verdict {
    var h := GetAllocationHash(a);
    if !h.found then Verdict(AllocationPlan(w, Start, "", "", []), true)
    else if h.previous == "" then Verdict(AllocationPlan(w, Start, "", h.current, []), true)
    else if h.previous != h.current then PlanUpdated(w, a, opts, policy, true, false)
    else if opts.force then PlanUpdated(w, a, opts, policy, false, false)
    else if AllocationNeedsVersionRollout(a) then PlanUpdated(w, a, opts, policy, false, true)
    else Verdict(AllocationPlan(w, Skip, h.previous, h.current, []), false)
  }

  function PlanDisabledAllocation(w: string, a: Allocation, opts: DeployOptions): Verdict {
    var h := GetAllocationHash(a);
    var wasDeployed := h.found && h.previous != "";
    var needsPromote :=
      (wasDeployed && h.previous != h.current) || AllocationNeedsVersionRollout(a) || (opts.force && wasDeployed);
    var action :=
      if wasDeployed && needsPromote then StopPromote
      else if wasDeployed then Stop
      else if needsPromote then Promote
      else Skip;
    Verdict(AllocationPlan(w, action, h.previous, h.current, []), wasDeployed || needsPromote)
  }

  ghost function PlanAllocation(w: string, a: Allocation, opts: DeployOptions, policy: JobPolicy): Verdict {
    if a.disabled then PlanDisabledAllocation(w, a, opts) else PlanActiveAllocation(w, a, opts, policy)
  }

  /** Whatever is planned for a row, the report shows its own promoted and staged hashes, each in its place. */
  lemma PlanShowsHashes(w: string, a: Allocation, opts: DeployOptions, policy: JobPolicy)
    ensures var plan := PlanAllocation(w, a, opts, policy).plan;
      && plan.worker == w
      && (match a.plan
          case None => plan.previousHash == "" && plan.currentHash == ""
          case Some(p) =>
            && plan.previousHash == (if p.previousHash.Some? then p.previousHash.value else "")
            && plan.currentHash == (if p.currentHash.Some? then p.currentHash.value else ""))
  {
  }

  /**
    A disabled allocation is to be stopped exactly if something is promoted for it, and to be promoted exactly if its
    content or version changed, or under force if it is still deployed. It is never started.
   */
  lemma DisabledPlanIff(w: string, a: Allocation, opts: DeployOptions, policy: JobPolicy)
    requires Sound(a) && a.disabled
    ensures var deployed := a.plan.Some? && a.plan.value.previousHash.Some?;
      var verdict := PlanAllocation(w, a, opts, policy);
      var promotes :=
        (deployed && (opts.force || a.plan.value.previousHash != a.plan.value.currentHash)) || VersionDiffers(a);
      && verdict.plan.action
         == (if deployed then if promotes then StopPromote else Stop else if promotes then Promote else Skip)
      && (verdict.needs <==> deployed || promotes)
  {
    VersionChecksAgree(a);
  }

  method ResolveAllocationLifecycle(
    a: Allocation, opts: DeployOptions, policy: JobPolicy, hashChanged: bool, versionOnly: bool)
    returns (action: Action, matched: seq<string>)
    ensures action == Lifecycle(a, opts, policy, hashChanged, versionOnly)
    ensures matched == LifecyclePaths(a, opts, policy, hashChanged, versionOnly)
    ensures action != Start && action != Skip && action != Stop && action != Promote && action != StopPromote
  {
    action, matched := ResolveUpdateAction(
      opts.syncOnly, policy.policy, policy.matcher, policy.globs, UpdateOf(a, hashChanged, versionOnly));
  }

  method PlanActive(w: string, a: Allocation, opts: DeployOptions, policy: JobPolicy) returns (verdict: Verdict)
    ensures verdict == PlanActiveAllocation(w, a, opts, policy)
  {
    var h := GetAllocationHash(a);
    var action, matched;
    if !h.found {
      return Verdict(AllocationPlan(w, Start, "", "", []), true);
    } else if h.previous == "" {
      return Verdict(AllocationPlan(w, Start, "", h.current, []), true);
    } else if h.previous != h.current {
      action, matched := ResolveAllocationLifecycle(a, opts, policy, true, false);
    } else if opts.force {
      action, matched := ResolveAllocationLifecycle(a, opts, policy, false, false);
    } else if AllocationNeedsVersionRollout(a) {
      action, matched := ResolveAllocationLifecycle(a, opts, policy, false, true);
    } else {
      return Verdict(AllocationPlan(w, Skip, h.previous, h.current, []), false);
    }
    return Verdict(AllocationPlan(w, action, h.previous, h.current, matched), true);
  }

  /** The non-removed rows of a job on catalogued workers, in catalog (position) order. */
  function NonRemovedOrdered(t: Table, catalog: seq<string>, job: string): seq<string> {
    if catalog == [] then []
    else
      var front := NonRemovedOrdered(t, catalog[..|catalog| - 1], job);
      var w := catalog[|catalog| - 1];
      if Slot(w, job) in t && !t[Slot(w, job)].removed then front + [w] else front
  }

  lemma {:induction false} NonRemovedOrderedSpec(t: Table, catalog: seq<string>, job: string)
    ensures forall w :: w in NonRemovedOrdered(t, catalog, job) <==>
      w in catalog && Slot(w, job) in t && !t[Slot(w, job)].removed
    ensures NoDup(catalog) ==> NoDup(NonRemovedOrdered(t, catalog, job))
  {
    if catalog != [] {
      var front, last := catalog[..|catalog| - 1], catalog[|catalog| - 1];
      NonRemovedOrderedSpec(t, front, job);
      assert catalog == front + [last];
    }
  }

  lemma {:induction false} NonRemovedKeepOrder(t: Table, catalog: seq<string>, job: string)
    ensures Sublist(NonRemovedOrdered(t, catalog, job), catalog)
  {
    if catalog != [] {
      var front, last := catalog[..|catalog| - 1], catalog[|catalog| - 1];
      assert catalog == front + [last];
      NonRemovedKeepOrder(t, front, job);
      NonRemovedOrderedSpec(t, front, job);
      KeepsOrder(NonRemovedOrdered(t, front, job), front, last);
    }
  }

  datatype SkipReason = NoReason | NoAllocations | AlreadyPromoted

  datatype JobPlan = JobPlan(needsRollout: bool, skipReason: SkipReason, allocations: seq<AllocationPlan>)

  /** A non-removed row the planner asks to work on. */
  ghost predicate Planned(t: Table, w: string, job: string, opts: DeployOptions, policy: JobPolicy) {
    Slot(w, job) in t && !t[Slot(w, job)].removed && PlanAllocation(w, t[Slot(w, job)], opts, policy).needs
  }

  ghost predicate PlannerNeeds(t: Table, catalog: seq<string>, job: string, opts: DeployOptions, policy: JobPolicy) {
    exists w :: w in catalog && Planned(t, w, job, opts, policy)
  }

  /** One plan per listed worker, each that of its row. */
  ghost predicate PlansRows(
    t: Table, job: string, opts: DeployOptions, policy: JobPolicy, rows: seq<string>, plans: seq<AllocationPlan>)
  {
    && |plans| == |rows|
    && forall i :: 0 <= i < |rows| ==>
         Slot(rows[i], job) in t && plans[i] == PlanAllocation(rows[i], t[Slot(rows[i], job)], opts, policy).plan
  }

  ghost predicate SomePlanned(t: Table, job: string, opts: DeployOptions, policy: JobPolicy, rows: seq<string>) {
    exists w :: w in rows && Planned(t, w, job, opts, policy)
  }

  method PlanRow(w: string, a: Allocation, opts: DeployOptions, policy: JobPolicy) returns (verdict: Verdict)
    ensures verdict == PlanAllocation(w, a, opts, policy)
  {
    if a.disabled {
      return PlanDisabledAllocation(w, a, opts);
    }
    verdict := PlanActive(w, a, opts, policy);
  }

  lemma PlansSnoc(
    t: Table, job: string, opts: DeployOptions, policy: JobPolicy,
    rows: seq<string>, plans: seq<AllocationPlan>, w: string)
    requires PlansRows(t, job, opts, policy, rows, plans) && Slot(w, job) in t && !t[Slot(w, job)].removed
    ensures var verdict := PlanAllocation(w, t[Slot(w, job)], opts, policy);
      && PlansRows(t, job, opts, policy, rows + [w], plans + [verdict.plan])
      && (SomePlanned(t, job, opts, policy, rows + [w]) <==> SomePlanned(t, job, opts, policy, rows) || verdict.needs)
  {
    assert w in rows + [w];
    assert forall x :: x in rows + [w] <==> x in rows || x == w;
  }

  /** The report on a job: one plan per catalogued non-removed row, in catalog order, the verdict and the skip reason. */
  ghost predicate IsJobPlan(
    plan: JobPlan, t: Table, catalog: seq<string>, job: string, opts: DeployOptions, policy: JobPolicy)
  {
    var rows := NonRemovedOrdered(t, catalog, job);
    && (plan.needsRollout <==> PlannerNeeds(t, catalog, job, opts, policy))
    && PlansRows(t, job, opts, policy, rows, plan.allocations)
    && plan.skipReason == (if rows == [] then NoAllocations else if plan.needsRollout then NoReason else AlreadyPromoted)
  }

  method PlanJobRollout(tx: Tx, catalog: seq<string>, job: string, opts: DeployOptions, policy: JobPolicy)
    returns (plan: JobPlan)
    ensures IsJobPlan(plan, tx.table, catalog, job, opts, policy)
  {
    var rows := NonRemovedOrdered(tx.table, catalog, job);
    PlannerSeesRows(tx.table, catalog, job, opts, policy);
    if |rows| == 0 {
      return JobPlan(false, NoAllocations, []);
    }
    var needs := false;
    var allocations: seq<AllocationPlan> := [];
    for i := 0 to |rows|
      invariant PlansRows(tx.table, job, opts, policy, rows[..i], allocations)
      invariant needs <==> SomePlanned(tx.table, job, opts, policy, rows[..i])
    {
      assert rows[i] in rows && rows[..i + 1] == rows[..i] + [rows[i]];
      PlansSnoc(tx.table, job, opts, policy, rows[..i], allocations, rows[i]);
      var verdict := PlanRow(rows[i], tx.table[Slot(rows[i], job)], opts, policy);
      needs := needs || verdict.needs;
      allocations := allocations + [verdict.plan];
    }
    assert rows[..|rows|] == rows;
    plan := JobPlan(needs, if needs then NoReason else AlreadyPromoted, allocations);
  }

  /** The planner's verdict is that of the listed rows. */
  lemma {:induction false} PlannerSeesRows(
    t: Table, catalog: seq<string>, job: string, opts: DeployOptions, policy: JobPolicy)
    ensures PlannerNeeds(t, catalog, job, opts, policy) <==>
            SomePlanned(t, job, opts, policy, NonRemovedOrdered(t, catalog, job))
    ensures forall w :: w in NonRemovedOrdered(t, catalog, job) ==> Slot(w, job) in t && !t[Slot(w, job)].removed
  {
    NonRemovedOrderedSpec(t, catalog, job);
  }

  /** Only the rows of the job show in its plan. */
  lemma {:induction false} SameRowsSameOrder(a: Table, b: Table, catalog: seq<string>, job: string)
    requires forall w :: Slot(w, job) in a <==> Slot(w, job) in b
    requires forall w :: Slot(w, job) in a ==> a[Slot(w, job)] == b[Slot(w, job)]
    ensures NonRemovedOrdered(a, catalog, job) == NonRemovedOrdered(b, catalog, job)
  {
    if catalog != [] {
      SameRowsSameOrder(a, b, catalog[..|catalog| - 1], job);
    }
  }

  lemma {:induction false} SameRowsSameJobPlan(
    plan: JobPlan, a: Table, b: Table, catalog: seq<string>, job: string, opts: DeployOptions, policy: JobPolicy)
    requires forall w :: Slot(w, job) in a <==> Slot(w, job) in b
    requires forall w :: Slot(w, job) in a ==> a[Slot(w, job)] == b[Slot(w, job)]
    requires IsJobPlan(plan, a, catalog, job, opts, policy)
    ensures IsJobPlan(plan, b, catalog, job, opts, policy)
  {
    SameRowsSameOrder(a, b, catalog, job);
  }

  /* ---- planner and rollout check agree ---- */

  /** The plan holds work that the rollout check also sees: a stop alone does not count. */
  ghost predicate PlansWork(w: string, a: Allocation, opts: DeployOptions, policy: JobPolicy) {
    var action := PlanAllocation(w, a, opts, policy).plan.action;
    if a.disabled then action == Promote || action == StopPromote else action != Skip
  }

  /** Row by row: the only need the planner does not plan for is a disabled row that has no hash row at all. */
  lemma RowsAgree(w: string, a: Allocation, opts: DeployOptions, policy: JobPolicy)
    requires Sound(a) && !a.removed && !opts.force
    ensures RowNeeds(a) <==> PlansWork(w, a, opts, policy) || (a.disabled && a.plan.None?)
  {
    VersionChecksAgree(a);
  }

  ghost predicate UnplannedNeed(t: Table, catalog: seq<string>, job: string) {
    exists w :: Slot(w, job) in t && RowNeeds(t[Slot(w, job)])
             && (w !in catalog || (t[Slot(w, job)].disabled && t[Slot(w, job)].plan.None?))
  }

  ghost predicate SomethingPlanned(t: Table, catalog: seq<string>, job: string, opts: DeployOptions, policy: JobPolicy) {
    exists w :: w in catalog && Slot(w, job) in t && !t[Slot(w, job)].removed
             && PlansWork(w, t[Slot(w, job)], opts, policy)
  }

  ghost predicate DisabledStillDeployed(t: Table, catalog: seq<string>, job: string) {
    exists w :: w in catalog && Slot(w, job) in t && !t[Slot(w, job)].removed && t[Slot(w, job)].disabled
             && GetAllocationHash(t[Slot(w, job)]).previous != ""
  }

  /** Exactly when the rollout check and the plan agree on a reachable table. */
  lemma CheckMatchesPlan(t: Table, catalog: seq<string>, job: string, opts: DeployOptions, policy: JobPolicy)
    requires SoundTable(t) && !opts.force
    ensures NeedsRollout(t, job) <==>
            SomethingPlanned(t, catalog, job, opts, policy) || UnplannedNeed(t, catalog, job)
  {
    forall w | Slot(w, job) in t && !t[Slot(w, job)].removed
      ensures RowNeeds(t[Slot(w, job)]) <==>
        PlansWork(w, t[Slot(w, job)], opts, policy) || (t[Slot(w, job)].disabled && t[Slot(w, job)].plan.None?)
    {
      RowsAgree(w, t[Slot(w, job)], opts, policy);
    }
    if NeedsRollout(t, job) {
      var w :| Slot(w, job) in t && RowNeeds(t[Slot(w, job)]);
      assert !t[Slot(w, job)].removed;
    }
    if SomethingPlanned(t, catalog, job, opts, policy) {
      var w :| w in catalog && Slot(w, job) in t && !t[Slot(w, job)].removed
        && PlansWork(w, t[Slot(w, job)], opts, policy);
      assert RowNeeds(t[Slot(w, job)]);
    }
  }

  /** The planner asks for a rollout when the check does, and also while a disabled allocation is still deployed. */
  lemma PlannerMatchesCheck(t: Table, catalog: seq<string>, job: string, opts: DeployOptions, policy: JobPolicy)
    requires SoundTable(t) && !opts.force && !UnplannedNeed(t, catalog, job)
    ensures PlannerNeeds(t, catalog, job, opts, policy) <==>
            NeedsRollout(t, job) || DisabledStillDeployed(t, catalog, job)
  {
  }

  /* ---- the status column ---- */

  datatype Status = Removed | DisabledRestart | Disabled | New | HealthFailed | RestartDue | Promoted

  function DisplayVersion(version: string): string {
    if version == "" then DEFAULT_ALLOCATION_VERSION else version
  }

  function RolloutStatus(
    disabled: bool, removed: bool, currentHash: string, previousHash: string,
    currentVersion: string, newVersion: string): Status
  {
    if removed then Removed
    else if disabled then
      if previousHash != "" && previousHash != currentHash then DisabledRestart
      else if DisplayVersion(currentVersion) != DisplayVersion(newVersion) then DisabledRestart
      else Disabled
    else if currentHash == "" && previousHash == "" then New
    else if previousHash == "" then New
    else if previousHash == HEALTH_FAILED then HealthFailed
    else if previousHash != currentHash then RestartDue
    else if DisplayVersion(currentVersion) != DisplayVersion(newVersion) then RestartDue
    else Promoted
  }

  /** The status the deployments table shows for a row, its columns read with NULL as the empty text. */
  function StatusOf(a: Allocation): Status {
    var h := GetAllocationHash(a);
    RolloutStatus(a.disabled, a.removed, h.current, h.previous, IfNull(CurrentVersion(a), ""), IfNull(a.newVersion, ""))
  }

  /** Status by status, what the planner plans for the row. */
  lemma StatusMatchesPlan(w: string, a: Allocation, opts: DeployOptions, policy: JobPolicy)
    requires Sound(a) && !opts.force
    ensures StatusOf(a) == Removed <==> a.removed
    ensures StatusOf(a) != HealthFailed
    ensures !a.removed ==>
      (var action := PlanAllocation(w, a, opts, policy).plan.action;
       match StatusOf(a)
       case New => !a.disabled && action == Start
       case RestartDue => !a.disabled && action != Start && action != Skip
       case Promoted => !a.disabled && action == Skip
       case DisabledRestart => a.disabled && (action == Promote || action == StopPromote)
       case Disabled => a.disabled && (action == Stop || action == Skip)
       case _ => false)
  {
  }

  /** So the status alone tells whether the row keeps its job from being skipped. */
  lemma StatusMatchesCheck(a: Allocation)
    requires Sound(a) && a.plan.Some?
    ensures RowNeeds(a) <==> StatusOf(a) in {New, RestartDue, DisabledRestart}
  {
  }
}
