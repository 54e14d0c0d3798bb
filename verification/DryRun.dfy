/** The dry run: refresh every visited job inside a transaction, plan it, and roll everything back. */
module DryRun {
  import opened AllocationTable
  import opened Attempts
  import opened Deploy
  import opened DeployProgress
  import opened DeployWaves
  import opened JobDeploy
  import opened Reconcile
  import opened RolloutExecutor
  import opened RolloutPlanner
  import opened RunSteps
  import opened Seqs

  datatype Report = Report(job: string, deploymentSeq: int, plan: JobPlan)

  /** What the planner says of a job on its refreshed rows. */
  ghost predicate Asks(t: Table, s: Setup, opts: DeployOptions, job: string) {
    PlannerNeeds(RefreshJob(t, job, s.trees), s.rollouts(job).catalog, job, opts, s.rollouts(job).policy)
  }

  /** The report is the job's plan on its own refreshed rows: every allocation's action and hashes, verdict and reason. */
  ghost predicate PlansJob(r: Report, t: Table, s: Setup, opts: DeployOptions) {
    var rollout := s.rollouts(r.job);
    IsJobPlan(r.plan, RefreshJob(t, r.job, s.trees), rollout.catalog, r.job, opts, rollout.policy)
  }

  /** Every report names a job visited in its wave and is that job's plan, whatever was refreshed before it. */
  ghost predicate Faithful(reports: seq<Report>, t: Table, s: Setup, opts: DeployOptions) {
    forall r :: r in reports ==>
      r.job in Visited(t, s) && r.job in JobsAt(t, s.jobs, r.deploymentSeq) && PlansJob(r, t, s, opts)
  }

  ghost predicate HasReport(reports: seq<Report>, job: string) {
    exists r :: r in reports && r.job == job
  }

  ghost predicate SomeAsks(reports: seq<Report>) {
    exists r :: r in reports && r.plan.needsRollout
  }

  method PlanJob(
    tx: Tx, s: Setup, job: string, deploymentSeq: int, opts: DeployOptions, ghost t0: Table, ghost done: set<string>)
    returns (r: Report)
    requires Tracks(tx.table, t0, s, true, Progress(done, done, {}))
    modifies tx
    ensures Tracks(tx.table, t0, s, true, Progress(done + {job}, done + {job}, {}))
    ensures r.job == job && r.deploymentSeq == deploymentSeq && PlansJob(r, t0, s, opts)
  {
    Refreshes(tx.table, t0, s, true, Progress(done, done, {}), job);
    UpdateJobAllocationHashes(tx, job, s.trees);
    ghost var p := Progress(done + {job}, done + {job}, {});
    RowsOfJob(tx.table, t0, s, true, p, job);
    var rollout := s.rollouts(job);
    var plan := PlanJobRollout(tx, rollout.catalog, job, opts, rollout.policy);
    SameRowsSameJobPlan(plan, tx.table, RefreshJob(t0, job, s.trees), rollout.catalog, job, opts, rollout.policy);
    r := Report(job, deploymentSeq, plan);
  }

  /** A sync-only deploy of the job would be refused: a new allocation waits for its first start. */
  ghost predicate Refused(r: Report, t: Table, s: Setup, opts: DeployOptions) {
    opts.syncOnly && r.plan.needsRollout && Workers(RefreshJob(t, r.job, s.trees), r.job, IsNew) != {}
  }

  /** Nothing failed: every step passed and no report is refused. */
  ghost predicate NothingFails(steps: seq<Step>, reports: seq<Report>, t: Table, s: Setup, opts: DeployOptions) {
    (forall x :: x in steps ==> x.ok) && forall r :: r in reports ==> !Refused(r, t, s, opts)
  }

  /** Everything passed up to the last step, which failed, or planned a job that is refused. */
  ghost predicate FailsLast(steps: seq<Step>, reports: seq<Report>, t: Table, s: Setup, opts: DeployOptions) {
    && steps != [] && (forall x :: x in steps[..|steps| - 1] ==> x.ok)
    && (if steps[|steps| - 1].ok then reports != [] && Refused(reports[|reports| - 1], t, s, opts)
        else forall r :: r in reports ==> !Refused(r, t, s, opts))
  }

  /** How it went: all of it, or up to the first thing that failed. */
  ghost predicate Goes(ok: bool, steps: seq<Step>, reports: seq<Report>, t: Table, s: Setup, opts: DeployOptions) {
    if ok then NothingFails(steps, reports, t, s, opts) else FailsLast(steps, reports, t, s, opts)
  }

  lemma GoesOn(
    ok: bool, a: seq<Step>, b: seq<Step>, x: seq<Report>, y: seq<Report>, t: Table, s: Setup, opts: DeployOptions)
    requires NothingFails(a, x, t, s, opts) && Goes(ok, b, y, t, s, opts)
    ensures Goes(ok, a + b, x + y, t, s, opts)
  {
    if !ok {
      assert (a + b)[..|a + b| - 1] == a + b[..|b| - 1];
    }
  }

  lemma GoesIff(ok: bool, steps: seq<Step>, reports: seq<Report>, t: Table, s: Setup, opts: DeployOptions)
    requires Goes(ok, steps, reports, t, s, opts)
    ensures ok <==> NothingFails(steps, reports, t, s, opts)
  {
    if !ok {
      assert steps[|steps| - 1] in steps;
      assert reports != [] ==> reports[|reports| - 1] in reports;
    }
  }

  lemma OneGoes(x: Step, reports: seq<Report>, t: Table, s: Setup, opts: DeployOptions)
    requires |reports| <= 1 && (!x.ok ==> reports == [])
    ensures Goes(
      x.ok && (reports == [] || !Refused(reports[0], t, s, opts)), [x], reports, t, s, opts)
  {
    assert [x][..0] == [];
  }

  /** The jobs of the reports, each with its wave, in order. */
  function Told(reports: seq<Report>): seq<Planned> {
    seq(|reports|, i requires 0 <= i < |reports| => Planned(reports[i].deploymentSeq, reports[i].job))
  }

  /** All jobs of the waves, in the order they are taken up. */
  function Visits(waves: seq<Wave>): seq<Planned> {
    if waves == [] then []
    else Visits(waves[..|waves| - 1]) + PlansOf(waves[|waves| - 1].number, waves[|waves| - 1].jobs)
  }

  method PlanJobs(
    rt: Runtime, tx: Tx, s: Setup, jobs: seq<string>, deploymentSeq: int, opts: DeployOptions, ghost t0: Table,
    ghost done: set<string>)
    returns (ok: bool, reports: seq<Report>, ghost steps: seq<Step>)
    requires Tracks(tx.table, t0, s, true, Progress(done, done, {}))
    requires forall j :: j in jobs ==> j in Visited(t0, s) && j in JobsAt(t0, s.jobs, deploymentSeq)
    modifies rt`steps, tx
    ensures rt.steps == old(rt.steps) + steps && Goes(ok, steps, reports, t0, s, opts)
    ensures |steps| <= |jobs| && Whats(steps) == Hookings(deploymentSeq, jobs[..|steps|])
    ensures |reports| <= |jobs| && Told(reports) == PlansOf(deploymentSeq, jobs[..|reports|])
    ensures ok ==> |steps| == |jobs| == |reports|
    ensures ok ==> Tracks(tx.table, t0, s, true, Progress(done + Elems(jobs), done + Elems(jobs), {}))
    ensures Faithful(reports, t0, s, opts)
  {
    reports, steps := [], [];
    ghost var seen := done;
    for i := 0 to |jobs|
      invariant seen == done + Elems(jobs[..i])
      invariant Tracks(tx.table, t0, s, true, Progress(seen, seen, {}))
      invariant Faithful(reports, t0, s, opts)
      invariant |steps| == i && Whats(steps) == Hookings(deploymentSeq, jobs[..i])
      invariant |reports| == i && Told(reports) == PlansOf(deploymentSeq, jobs[..i])
      invariant rt.steps == old(rt.steps) + steps && NothingFails(steps, reports, t0, s, opts)
    {
      ElemsTake(jobs, i);
      assert jobs[i] in Elems(jobs);
      var preDeploy := rt.Take(PreDeploy(deploymentSeq, jobs[i]));
      ghost var step := Step(PreDeploy(deploymentSeq, jobs[i]), preDeploy);
      AppendsOne(old(rt.steps), steps, step);
      HookTold(deploymentSeq, jobs, i, steps, step);
      if !preDeploy {
        OneGoes(step, [], t0, s, opts);
        GoesOn(false, steps, [step], reports, [], t0, s, opts);
        assert reports + [] == reports;
        return false, reports, steps + [step];
      }
      var r := PlanJob(tx, s, jobs[i], deploymentSeq, opts, t0, seen);
      seen := seen + {jobs[i]};
      JobTold(deploymentSeq, jobs, i, reports, r);
      RefusedIff(tx.table, r, t0, s, opts, Progress(seen, seen, {}));
      OneGoes(step, [r], t0, s, opts);
      GoesOn(!Refused(r, t0, s, opts), steps, [step], reports, [r], t0, s, opts);
      reports, steps := reports + [r], steps + [step];
      if r.plan.needsRollout && opts.syncOnly {
        var valid := ValidateSyncOnlyRollout(tx, jobs[i]);
        if !valid {
          return false, reports, steps;
        }
      }
    }
    assert jobs[..|jobs|] == jobs;
    return true, reports, steps;
  }

  lemma HookTold(wave: int, jobs: seq<string>, i: nat, steps: seq<Step>, step: Step)
    requires i < |jobs| && Whats(steps) == Hookings(wave, jobs[..i]) && step.what == PreDeploy(wave, jobs[i])
    ensures Whats(steps + [step]) == Hookings(wave, jobs[..i + 1])
  {
    WhatsAdd(steps, [step]);
    OneStep(step);
    assert jobs[..i + 1] == jobs[..i] + [jobs[i]];
  }

  lemma JobTold(wave: int, jobs: seq<string>, i: nat, reports: seq<Report>, r: Report)
    requires i < |jobs| && Told(reports) == PlansOf(wave, jobs[..i]) && r.deploymentSeq == wave && r.job == jobs[i]
    ensures Told(reports + [r]) == PlansOf(wave, jobs[..i + 1])
  {
    assert jobs[..i + 1] == jobs[..i] + [jobs[i]];
    assert PlansOf(wave, jobs[..i + 1]) == PlansOf(wave, jobs[..i]) + [Planned(wave, jobs[i])];
    assert Told(reports + [r]) == Told(reports) + [Planned(wave, jobs[i])];
  }

  lemma RefusedIff(t: Table, r: Report, t0: Table, s: Setup, opts: DeployOptions, p: Progress)
    requires Tracks(t, t0, s, true, p) && p.deployed == {} && r.job in p.refreshed
    ensures Refused(r, t0, s, opts) <==> opts.syncOnly && r.plan.needsRollout && Workers(t, r.job, IsNew) != {}
  {
    RowsOfJob(t, t0, s, true, p, r.job);
    assert forall w :: w in Workers(t, r.job, IsNew) <==> w in Workers(RefreshJob(t0, r.job, s.trees), r.job, IsNew);
  }

  /** The waves of a dry run, which stages nothing: each has exactly its jobs. */
  ghost predicate DryWaves(waves: seq<Wave>, t: Table, s: Setup) {
    WavesOf(waves, t, s) && forall k :: 0 <= k < |waves| ==> waves[k].toStage == []
  }

  /**
    The steps are the preparation and the hooks of each wave, and the reports are on its jobs, in that order; of the
    last wave perhaps not all.
   */
  ghost predicate OnPlan(ok: bool, steps: seq<Step>, reports: seq<Report>, waves: seq<Wave>, t: Table, s: Setup) {
    && DryWaves(waves, t, s)
    && (if ok then Whats(steps) == Script(waves) && Told(reports) == Visits(waves)
        else Whats(steps) <= Script(waves) && Told(reports) <= Visits(waves))
  }

  /** Every wave there is was taken up. */
  ghost predicate AllWaves(waves: seq<Wave>, t: Table) {
    forall slot :: slot in t ==> t[slot].deploymentSeq < |waves|
  }

  /** One more wave, all of it or a part. */
  lemma {:induction false} WaveAdds(
    ok: bool, steps: seq<Step>, reports: seq<Report>, waves: seq<Wave>, t: Table, s: Setup, x: Wave, taken: seq<Step>,
    more: seq<Report>)
    requires OnPlan(true, steps, reports, waves, t, s) && x.number == |waves| && IsWave(x, t, s) && x.toStage == []
    requires Whats(taken) <= WaveScript(x) && Told(more) <= PlansOf(x.number, x.jobs)
    requires ok ==> Whats(taken) == WaveScript(x) && Told(more) == PlansOf(x.number, x.jobs)
    ensures OnPlan(ok, steps + taken, reports + more, waves + [x], t, s)
  {
    WavesGrow(waves, x, t, s);
    WhatsAdd(steps, taken);
    TellsMore(reports, more, waves, x);
  }

  lemma {:induction false} TellsMore(reports: seq<Report>, more: seq<Report>, waves: seq<Wave>, x: Wave)
    ensures Told(reports + more) == Told(reports) + Told(more)
    ensures Visits(waves + [x]) == Visits(waves) + PlansOf(x.number, x.jobs)
    ensures Script(waves + [x]) == Script(waves) + WaveScript(x)
  {
    assert (waves + [x])[..|waves|] == waves;
  }

  lemma {:induction false} AllReported(steps: seq<Step>, reports: seq<Report>, waves: seq<Wave>, t: Table, s: Setup)
    requires OnPlan(true, steps, reports, waves, t, s) && AllWaves(waves, t)
    ensures forall j :: j in Visited(t, s) ==> HasReport(reports, j)
  {
    forall j | j in Visited(t, s) ensures HasReport(reports, j) {
      var slot :| slot in t && !t[slot].removed && t[slot].deploymentSeq >= 0 && slot.job in s.jobs
        && Chosen(s.filter, slot.job) && slot.job == j;
      var k := t[slot].deploymentSeq;
      assert slot in Reconciled(t);
      assert IsWave(waves[k], t, s) && j in waves[k].jobs;
      VisitsAll(waves, k, j);
      var i :| 0 <= i < |Told(reports)| && Told(reports)[i] == Planned(waves[k].number, j);
      assert reports[i] in reports && reports[i].job == j;
    }
  }

  lemma {:induction false} VisitsAll(waves: seq<Wave>, k: nat, job: string)
    requires k < |waves| && job in waves[k].jobs
    ensures Planned(waves[k].number, job) in Visits(waves)
    decreases |waves|
  {
    var n := |waves| - 1;
    if k < n {
      VisitsAll(waves[..n], k, job);
    } else {
      var i :| 0 <= i < |waves[n].jobs| && waves[n].jobs[i] == job;
      assert PlansOf(waves[n].number, waves[n].jobs)[i] == Planned(waves[n].number, job);
    }
  }

  /**
    The dry run changes nothing and calls no worker. Wave by wave it prepares the workers, runs the hooks of each job of
    the wave and plans it, up to the first step that fails or job that would be refused. It fails exactly if there is
    one, and asks for a deploy exactly if the planner asks for one of the visited jobs.
   */
  method Run(rt: Runtime, tx: Tx, s: Setup, opts: DeployOptions)
    returns (ok: bool, required: bool, reports: seq<Report>, ghost steps: seq<Step>, ghost waves: seq<Wave>)
    modifies rt`steps, tx
    ensures tx.table == old(tx.table) && rt.steps == old(rt.steps) + steps
    ensures ok <==> NothingFails(steps, reports, old(tx.table), s, opts)
    ensures !ok ==> FailsLast(steps, reports, old(tx.table), s, opts)
    ensures OnPlan(ok, steps, reports, waves, old(tx.table), s) && (ok ==> AllWaves(waves, old(tx.table)))
    ensures Faithful(reports, old(tx.table), s, opts)
    ensures required <==> SomeAsks(reports)
    ensures ok ==> (required <==> exists j :: j in Visited(old(tx.table), s) && Asks(old(tx.table), s, opts, j))
  {
    var begun := tx.table;
    ok, reports, steps, waves := PlanWaves(rt, tx, s, opts);
    GoesIff(ok, steps, reports, begun, s, opts);
    required := DeployRequired(reports);
    if ok {
      AllReported(steps, reports, waves, begun, s);
      RequiredIff(reports, begun, s, opts);
    }
    tx.Rollback(begun);
  }

  method DeployRequired(reports: seq<Report>) returns (required: bool)
    ensures required <==> SomeAsks(reports)
  {
    required := false;
    for i := 0 to |reports|
      invariant required <==> SomeAsks(reports[..i])
    {
      SomeAsksTake(reports, i);
      if reports[i].plan.needsRollout {
        required := true;
      }
    }
    assert reports[..|reports|] == reports;
  }

  lemma SomeAsksTake(reports: seq<Report>, i: nat)
    requires i < |reports|
    ensures SomeAsks(reports[..i + 1]) <==> SomeAsks(reports[..i]) || reports[i].plan.needsRollout
  {
  }

  lemma RequiredIff(reports: seq<Report>, t: Table, s: Setup, opts: DeployOptions)
    requires Faithful(reports, t, s, opts)
    requires forall j :: j in Visited(t, s) ==> HasReport(reports, j)
    ensures SomeAsks(reports) <==> exists j :: j in Visited(t, s) && Asks(t, s, opts, j)
  {
    if exists j :: j in Visited(t, s) && Asks(t, s, opts, j) {
      var j :| j in Visited(t, s) && Asks(t, s, opts, j);
      assert HasReport(reports, j);
    }
    if SomeAsks(reports) {
      var r :| r in reports && r.plan.needsRollout;
      assert Asks(t, s, opts, r.job);
    }
  }

  method PlanWaves(rt: Runtime, tx: Tx, s: Setup, opts: DeployOptions)
    returns (ok: bool, reports: seq<Report>, ghost steps: seq<Step>, ghost waves: seq<Wave>)
    modifies rt`steps, tx
    ensures rt.steps == old(rt.steps) + steps && Goes(ok, steps, reports, old(tx.table), s, opts)
    ensures OnPlan(ok, steps, reports, waves, old(tx.table), s) && (ok ==> AllWaves(waves, old(tx.table)))
    ensures Faithful(reports, old(tx.table), s, opts)
  {
    ghost var t0 := tx.table;
    assert Outcome(t0, s.trees, {}, {}) == t0;
    ghost var done: set<string> := {};
    var maxSeq := GetMaxDeploymentSeq(tx);
    var deploymentSeq := 0;
    reports, steps, waves := [], [], [];
    while deploymentSeq <= maxSeq
      invariant deploymentSeq == |waves| && Tracks(tx.table, t0, s, true, Progress(done, done, {}))
      invariant Faithful(reports, t0, s, opts) && OnPlan(true, steps, reports, waves, t0, s)
      invariant rt.steps == old(rt.steps) + steps && NothingFails(steps, reports, t0, s, opts)
    {
      var more; ghost var taken, x;
      ok, more, taken, x := PlanWave(rt, tx, s, deploymentSeq, opts, t0, done);
      WaveAdds(ok, steps, reports, waves, t0, s, x, taken, more);
      GoesOn(ok, steps, taken, reports, more, t0, s, opts);
      JoinsMore(old(rt.steps), steps, taken);
      reports, steps, waves := reports + more, steps + taken, waves + [x];
      if !ok {
        return;
      }
      done := done + Elems(x.jobs);
      deploymentSeq := deploymentSeq + 1;
    }
    ok := true;
  }

  /** One wave: nothing if it has no jobs, else its preparation and its jobs. */
  method PlanWave(
    rt: Runtime, tx: Tx, s: Setup, deploymentSeq: int, opts: DeployOptions, ghost t0: Table, ghost done: set<string>)
    returns (ok: bool, reports: seq<Report>, ghost steps: seq<Step>, ghost x: Wave)
    requires Tracks(tx.table, t0, s, true, Progress(done, done, {})) && deploymentSeq >= 0
    modifies rt`steps, tx
    ensures rt.steps == old(rt.steps) + steps && Goes(ok, steps, reports, t0, s, opts)
    ensures x.number == deploymentSeq && IsWave(x, t0, s) && x.toStage == []
    ensures Whats(steps) <= WaveScript(x) && Told(reports) <= PlansOf(x.number, x.jobs)
    ensures ok ==> Whats(steps) == WaveScript(x) && Told(reports) == PlansOf(x.number, x.jobs)
    ensures ok ==> Tracks(tx.table, t0, s, true, Progress(done + Elems(x.jobs), done + Elems(x.jobs), {}))
    ensures Faithful(reports, t0, s, opts)
  {
    TracksKeepsShape(tx.table, t0, s, Progress(done, done, {}));
    var available := Enumerate(JobsAt(tx.table, s.jobs, deploymentSeq));
    assert forall j :: j in available <==> j in Elems(available);
    var jobs := SelectJobsForDeploy(available, s.filter);
    x := Wave(deploymentSeq, jobs, []);
    WaveIsVisited(tx.table, s, deploymentSeq, t0, jobs);
    JobsOfWave(tx.table, s, deploymentSeq, t0, jobs);
    if |jobs| == 0 {
      assert jobs == [] && done + Elems(jobs) == done;
      return true, [], [], x;
    }
    var prepared := rt.Take(Prepare(deploymentSeq));
    ghost var step := Step(Prepare(deploymentSeq), prepared);
    OneStep(step);
    OneGoes(step, [], t0, s, opts);
    if !prepared {
      return false, [], [step], x;
    }
    ghost var taken;
    ok, reports, taken := PlanJobs(rt, tx, s, jobs, deploymentSeq, opts, t0, done);
    steps := [step] + taken;
    JoinsMore(old(rt.steps), [step], taken);
    GoesOn(ok, [step], taken, [], reports, t0, s, opts);
    assert [] + reports == reports;
    WaveTold(x, step, taken, reports);
  }

  lemma WaveTold(x: Wave, step: Step, taken: seq<Step>, reports: seq<Report>)
    requires x.jobs != [] && x.toStage == [] && step.what == Prepare(x.number)
    requires |taken| <= |x.jobs| && Whats(taken) == Hookings(x.number, x.jobs[..|taken|])
    requires |reports| <= |x.jobs| && Told(reports) == PlansOf(x.number, x.jobs[..|reports|])
    ensures Whats([step] + taken) <= WaveScript(x) && Told(reports) <= PlansOf(x.number, x.jobs)
    ensures |taken| == |x.jobs| ==> Whats([step] + taken) == WaveScript(x)
    ensures |reports| == |x.jobs| ==> Told(reports) == PlansOf(x.number, x.jobs)
  {
    WhatsAdd([step], taken);
    OneStep(step);
    assert WaveScript(x) == [Prepare(x.number)] + Hookings(x.number, x.jobs) + [];
    assert x.jobs[..|x.jobs|] == x.jobs;
  }

  lemma JobsOfWave(t: Table, s: Setup, deploymentSeq: int, begun: Table, jobs: seq<string>)
    requires SameShape(t, begun) && deploymentSeq >= 0
    requires forall j :: j in jobs <==> j in JobsAt(t, s.jobs, deploymentSeq) && Chosen(s.filter, j)
    ensures forall j :: j in jobs ==> j in Visited(begun, s) && j in JobsAt(begun, s.jobs, deploymentSeq)
  {
    assert JobsAt(t, s.jobs, deploymentSeq) == JobsAt(begun, s.jobs, deploymentSeq);
  }

  lemma TracksKeepsShape(t: Table, t0: Table, s: Setup, p: Progress)
    requires Tracks(t, t0, s, true, p)
    ensures SameShape(t, t0)
  {
  }
}
