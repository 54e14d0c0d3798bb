/** How far a deploy has come: the plans it refreshed, the jobs it visits, and which of them it must stage. */
module DeployProgress {
  import opened AllocationTable
  import opened JobDeploy
  import opened Reconcile
  import opened RolloutExecutor
  import opened RolloutPlanner
  import opened Seqs
  import opened Sets

  /** The tree each allocation is staged with; the same in every run considered here. */
  type Trees = Slot -> Tree

  /** What a deploy reads besides the table. */
  datatype Setup = Setup(
    jobs: set<string>, filter: seq<string>, trees: Trees, rollouts: string -> Rollout, commands: string -> nat)

  /* ---- refreshing the plans of a job ---- */

  function RefreshJob(t: Table, job: string, trees: Trees): Table {
    map slot | slot in t :: if slot.job == job && !t[slot].removed then RefreshRow(t[slot], trees(slot)) else t[slot]
  }

  method UpdateJobAllocationHashes(tx: Tx, job: string, trees: Trees)
    modifies tx
    ensures tx.table == RefreshJob(old(tx.table), job, trees)
  {
    var workers := tx.Select(job, NonRemoved);
    ghost var t := tx.table;
    for i := 0 to |workers|
      invariant tx.table.Keys == t.Keys
      invariant forall slot :: slot in t ==>
        tx.table[slot] ==
        if slot.job == job && slot.worker in workers[..i] then RefreshRow(t[slot], trees(slot)) else t[slot]
    {
      assert workers[..i + 1] == workers[..i] + [workers[i]];
      assert workers[i] in workers && workers[i] !in workers[..i];
      tx.UpdateAllocationPlan(Slot(workers[i], job), trees(Slot(workers[i], job)));
    }
    assert workers[..|workers|] == workers;
    forall slot | slot in t ensures tx.table[slot] == RefreshJob(t, job, trees)[slot] {
      assert slot == Slot(slot.worker, slot.job);
    }
  }

  /** Whether a job would be staged by a run that refreshes its plans first. */
  ghost predicate NeedsAfterRefresh(t: Table, trees: Trees, job: string) {
    NeedsRollout(RefreshJob(t, job, trees), job)
  }

  /* ---- where a run has got to ---- */

  function RowNow(a: Allocation, tree: Tree, refreshed: bool, deployed: bool): Allocation {
    if a.removed then a
    else if deployed then PromoteRow(RefreshRow(a, tree))
    else if refreshed then RefreshRow(a, tree)
    else a
  }

  /** The table once these jobs have been refreshed and those deployed. */
  function Outcome(t: Table, trees: Trees, refreshed: set<string>, deployed: set<string>): Table {
    map slot | slot in t :: RowNow(t[slot], trees(slot), slot.job in refreshed, slot.job in deployed)
  }

  lemma RefreshStep(t: Table, trees: Trees, refreshed: set<string>, deployed: set<string>, job: string)
    requires deployed <= refreshed
    ensures RefreshJob(Outcome(t, trees, refreshed, deployed), job, trees)
         == Outcome(t, trees, refreshed + {job}, deployed)
  {
  }

  lemma PromoteStep(t: Table, trees: Trees, refreshed: set<string>, deployed: set<string>, job: string)
    requires deployed <= refreshed && job in refreshed
    ensures PromoteJob(Outcome(t, trees, refreshed, deployed), job)
         == Outcome(t, trees, refreshed, deployed + {job})
  {
  }

  /** At any point of a run: a job still needs a rollout exactly if it did before the run and is not deployed. */
  lemma OutcomeNeeds(t: Table, trees: Trees, refreshed: set<string>, deployed: set<string>, job: string)
    requires deployed <= refreshed
    ensures NeedsAfterRefresh(Outcome(t, trees, refreshed, deployed), trees, job) <==>
            NeedsAfterRefresh(t, trees, job) && job !in deployed
    ensures job in refreshed ==>
      (NeedsRollout(Outcome(t, trees, refreshed, deployed), job) <==>
       NeedsAfterRefresh(t, trees, job) && job !in deployed)
  {
  }

  lemma ReconcileKeepsNeeds(t: Table, trees: Trees, job: string)
    ensures NeedsAfterRefresh(Reconciled(t), trees, job) <==> NeedsAfterRefresh(t, trees, job)
  {
  }

  /* ---- which jobs a run visits ---- */

  function JobsAt(t: Table, jobs: set<string>, deploymentSeq: int): set<string> {
    set slot | slot in t && !t[slot].removed && t[slot].deploymentSeq == deploymentSeq && slot.job in jobs :: slot.job
  }

  predicate Chosen(filter: seq<string>, job: string) {
    filter == [] || job in filter
  }

  /** Every job of the catalog that has a non-removed row in some wave and passes the filter. */
  function Visited(t: Table, s: Setup): set<string> {
    set slot | slot in t && !t[slot].removed && t[slot].deploymentSeq >= 0 && slot.job in s.jobs
               && Chosen(s.filter, slot.job) :: slot.job
  }

  method SelectJobsForDeploy(available: seq<string>, filter: seq<string>) returns (selected: seq<string>)
    ensures forall j :: j in selected <==> j in available && Chosen(filter, j)
    ensures NoDup(available) ==> NoDup(selected)
    ensures selected == if filter == [] then available else Only(available, Elems(filter))
  {
    if |filter| == 0 {
      return available;
    }
    var names := Unique(filter);
    var filterSet := ToSet(names);
    assert filterSet == Elems(filter);
    selected := [];
    for i := 0 to |available|
      invariant selected == Only(available[..i], filterSet)
    {
      assert available[..i + 1][..i] == available[..i];
      if available[i] in filterSet {
        selected := selected + [available[i]];
      }
    }
    assert available[..|available|] == available;
    OnlySpec(available, filterSet);
  }

  /** SQL's `ifnull(max(deployment_seq), 0)`, over removed rows too. */
  method GetMaxDeploymentSeq(tx: Tx) returns (m: int)
    ensures forall slot :: slot in tx.table ==> tx.table[slot].deploymentSeq <= m
    ensures if tx.table == map[] then m == 0 else exists slot :: slot in tx.table && tx.table[slot].deploymentSeq == m
  {
    var rows := Enumerate(tx.table.Keys);
    assert forall slot :: slot in tx.table <==> slot in Elems(rows);
    if |rows| == 0 {
      assert rows == [];
      return 0;
    }
    assert rows[0] in Elems(rows);
    m := tx.table[rows[0]].deploymentSeq;
    for i := 1 to |rows|
      invariant forall j :: 0 <= j < i ==> rows[j] in tx.table && tx.table[rows[j]].deploymentSeq <= m
      invariant exists slot :: slot in tx.table && tx.table[slot].deploymentSeq == m
    {
      assert rows[i] in Elems(rows);
      if tx.table[rows[i]].deploymentSeq > m {
        m := tx.table[rows[i]].deploymentSeq;
      }
    }
  }

  /* ---- the run ---- */

  /** What a run has done so far: jobs refreshed, staged and deployed. */
  datatype Progress = Progress(refreshed: set<string>, staged: set<string>, deployed: set<string>)

  const START := Progress({}, {}, {})

  /** The staged jobs are the refreshed ones that needed a rollout, all of them under force. */
  ghost predicate Decides(p: Progress, t0: Table, s: Setup, force: bool) {
    && p.deployed <= p.staged <= p.refreshed
    && forall j :: j in p.staged <==> j in p.refreshed && (force || NeedsAfterRefresh(t0, s.trees, j))
  }

  /** The table and the staged jobs are what the progress says. */
  ghost predicate Tracks(t: Table, t0: Table, s: Setup, force: bool, p: Progress) {
    Decides(p, t0, s, force) && t == Outcome(t0, s.trees, p.refreshed, p.deployed)
  }

  lemma Refreshes(t: Table, t0: Table, s: Setup, force: bool, p: Progress, job: string)
    requires Tracks(t, t0, s, force, p)
    ensures var next := RefreshJob(t, job, s.trees);
      var staged := if force || NeedsAfterRefresh(t0, s.trees, job) then p.staged + {job} else p.staged;
      && Tracks(next, t0, s, force, p.(refreshed := p.refreshed + {job}, staged := staged))
      && (NeedsRollout(next, job) <==> NeedsAfterRefresh(t0, s.trees, job) && job !in p.deployed)
  {
    RefreshStep(t0, s.trees, p.refreshed, p.deployed, job);
    OutcomeNeeds(t0, s.trees, p.refreshed + {job}, p.deployed, job);
  }

  /** A refreshed job is staged if it needs a rollout and is not deployed yet, and under force always. */
  ghost predicate MustStage(t0: Table, s: Setup, force: bool, p: Progress, job: string) {
    force || (NeedsAfterRefresh(t0, s.trees, job) && job !in p.deployed)
  }

  /** Refresh one job and decide whether to stage it. */
  method PlanOneJob(tx: Tx, s: Setup, job: string, opts: DeployOptions, ghost t0: Table, ghost p: Progress)
    returns (stage: bool, ghost q: Progress)
    requires Tracks(tx.table, t0, s, opts.force, p)
    modifies tx
    ensures Tracks(tx.table, t0, s, opts.force, q)
    ensures q.deployed == p.deployed && q.refreshed == p.refreshed + {job}
    ensures stage <==> MustStage(t0, s, opts.force, p, job)
  {
    Refreshes(tx.table, t0, s, opts.force, p, job);
    UpdateJobAllocationHashes(tx, job, s.trees);
    ghost var staged := if opts.force || NeedsAfterRefresh(t0, s.trees, job) then p.staged + {job} else p.staged;
    q := p.(refreshed := p.refreshed + {job}, staged := staged);
    stage := true;
    if !opts.force {
      stage := JobNeedsRollout(tx, job);
    }
  }
}
