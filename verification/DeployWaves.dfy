/** One wave of a deploy: its jobs, how it went, and what it reports. */
module DeployWaves {
  import opened AllocationTable
  import opened Attempts
  import opened DeployProgress
  import opened Options
  import opened Reconcile
  import opened RolloutExecutor
  import opened RolloutPlanner
  import opened RolloutTrace
  import opened RunSteps
  import opened Seqs

  /** What a committed run leaves, as a relation between the tables before and after. */
  ghost predicate Committed(before: Table, after: Table, s: Setup, force: bool, p: Progress) {
    && Tracks(after, Reconciled(before), s, force, p)
    && p.refreshed <= Visited(before, s)
  }

  /** The same rows with the same flags and waves; only versions and plans may differ. */
  ghost predicate SameShape(a: Table, b: Table) {
    && a.Keys == b.Keys
    && forall slot :: slot in a ==>
         a[slot].removed == b[slot].removed && a[slot].disabled == b[slot].disabled
         && a[slot].deploymentSeq == b[slot].deploymentSeq
  }

  lemma RunKeepsShape(before: Table, after: Table, s: Setup, force: bool, p: Progress)
    requires Committed(before, after, s, force, p)
    ensures SameShape(after, before)
  {
  }

  lemma RefreshKeepsShape(t: Table, job: string, trees: Trees)
    ensures SameShape(RefreshJob(t, job, trees), t)
  {
  }

  /** The jobs of the waves before one, as far as the filter lets them through: their hooks ran. */
  ghost predicate Covered(begun: Table, s: Setup, before: int, steps: seq<Step>) {
    forall slot ::
      slot in begun && !begun[slot].removed && 0 <= begun[slot].deploymentSeq < before && slot.job in s.jobs
      && Chosen(s.filter, slot.job) ==>
        slot.job in Hooked(steps, true) + Hooked(steps, false)
  }

  lemma WaveIsVisited(t: Table, s: Setup, deploymentSeq: int, begun: Table, jobs: seq<string>)
    requires SameShape(t, begun) && deploymentSeq >= 0
    requires forall j :: j in jobs <==> j in JobsAt(t, s.jobs, deploymentSeq) && Chosen(s.filter, j)
    ensures Elems(jobs) <= Visited(begun, s)
    ensures WaveJobs(jobs, begun, s, deploymentSeq)
  {
    assert JobsAt(t, s.jobs, deploymentSeq) == JobsAt(Reconciled(begun), s.jobs, deploymentSeq);
  }

  /** Exactly the jobs of the catalog that the filter chooses and that have an allocation in the wave. */
  ghost predicate WaveJobs(jobs: seq<string>, begun: Table, s: Setup, wave: int) {
    forall j :: j in jobs <==> j in JobsAt(Reconciled(begun), s.jobs, wave) && Chosen(s.filter, j)
  }

  lemma CoversMore(begun: Table, s: Setup, wave: int, jobs: seq<string>, steps: seq<Step>, more: seq<Step>)
    requires Covered(begun, s, wave, steps) && WaveJobs(jobs, begun, s, wave)
    requires Elems(jobs) <= Hooked(more, true) + Hooked(more, false)
    ensures Covered(begun, s, wave + 1, steps + more)
  {
    StepsAdd(steps, more);
    forall slot |
      slot in begun && !begun[slot].removed && 0 <= begun[slot].deploymentSeq < wave + 1 && slot.job in s.jobs
      && Chosen(s.filter, slot.job)
      ensures slot.job in Hooked(steps + more, true) + Hooked(steps + more, false)
    {
      if begun[slot].deploymentSeq == wave {
        assert slot.job in JobsAt(Reconciled(begun), s.jobs, wave) by {
          assert slot in Reconciled(begun);
        }
        assert slot.job in Elems(jobs);
      }
    }
  }

  /** A job to be deployed in a wave. */
  datatype Planned = Planned(wave: int, job: string)

  function PlansOf(wave: int, jobs: seq<string>): seq<Planned> {
    seq(|jobs|, i requires 0 <= i < |jobs| => Planned(wave, jobs[i]))
  }

  /** All jobs the waves staged, in the order of their deploys. */
  function Agenda(waves: seq<Wave>): seq<Planned> {
    if waves == [] then []
    else Agenda(waves[..|waves| - 1]) + PlansOf(waves[|waves| - 1].number, waves[|waves| - 1].toStage)
  }

  function Done(attempts: seq<Attempt>): seq<Planned> {
    seq(|attempts|, i requires 0 <= i < |attempts| => Planned(attempts[i].wave, attempts[i].job))
  }

  /**
    What a run left: the reconcile pass, the steps it took, the waves it went through, and its attempts, one after the
    other.
   */
  datatype RunLog = RunLog(reconcile: Pass, steps: seq<Step>, waves: seq<Wave>, attempts: seq<Attempt>)

  /** How a run ended: complete, or at the first failure that it does not go on after. */
  datatype Ending =
    | Complete
    | NotReady
    | NotReconciled
    | NotPrepared(wave: int)
    | NotStaged(wave: int, job: string)
    | NotCommitted

  function Scheduled(waves: seq<Wave>): set<string> {
    set x | x in Agenda(waves) :: x.job
  }

  /** The jobs refreshed, staged and deployed, against the steps taken, the waves and the attempts. */
  ghost predicate Balanced(p: Progress, t0: Table, s: Setup, opts: DeployOptions, log: RunLog) {
    && Decides(p, t0, s, opts.force) && Recorded(log.attempts, t0, s, opts)
    && p.refreshed == Hooked(log.steps, true) && p.deployed == DeployedBy(log.attempts)
    && p.staged == Scheduled(log.waves)
  }

  /** Everything a complete run did and did not do is in its attempts and its list of failures. */
  ghost predicate Accounted(p: Progress, failures: seq<Failure>, attempts: seq<Attempt>, visited: set<string>) {
    && p.deployed == DeployedBy(attempts) && p.staged == AttemptedBy(attempts)
    && FailedIn(attempts) == JobsNotDeployed(failures) && JobsNotRefreshed(failures) <= visited
  }

  /** What is reported: exactly what failed without ending the run. */
  ghost predicate Reported(failures: seq<Failure>, log: RunLog) {
    && JobsNotRefreshed(failures) == Hooked(log.steps, false)
    && JobsNotPersisted(failures) == Unpersisted(log.steps)
    && JobsNotDeployed(failures) == FailedIn(log.attempts)
  }

  /** The waves from the first on, each with exactly its jobs, of which it stages some, in order. */
  ghost predicate WavesOf(waves: seq<Wave>, begun: Table, s: Setup) {
    forall k :: 0 <= k < |waves| ==> waves[k].number == k && IsWave(waves[k], begun, s)
  }

  ghost predicate IsWave(x: Wave, begun: Table, s: Setup) {
    WaveJobs(x.jobs, begun, s, x.number) && NoDup(x.jobs) && Sublist(x.toStage, x.jobs)
  }

  /** How one wave went: all of it, or up to the step that ended the run. */
  ghost predicate WaveRan(x: Wave, steps: seq<Step>, more: seq<Attempt>, ending: Option<Ending>) {
    match ending
    case None => Whats(steps) == WaveScript(x) && NoneFatal(steps) && JobsOf(more) == x.toStage
    case Some(NotPrepared(w)) =>
      w == x.number && x.jobs != [] && x.toStage == [] && steps == [Step(Prepare(w), false)] && more == []
    case Some(NotStaged(w, j)) =>
      && w == x.number && |more| < |x.toStage| && JobsOf(more) == x.toStage[..|more|] && x.toStage[|more|] == j
      && steps != [] && steps[|steps| - 1] == Step(Stage(w, j), false) && NoneFatal(steps[..|steps| - 1])
      && Whats(steps) <= WaveScript(x)
    case Some(_) => false
  }

  /** What a wave reports, and that the hooks of all its jobs ran. */
  ghost predicate WaveReports(
    x: Wave, steps: seq<Step>, more: seq<Attempt>, failures: seq<Failure>, deployedJobs: seq<string>, prepared: bool)
  {
    && JobsNotRefreshed(failures) == Hooked(steps, false) && JobsNotPersisted(failures) == Unpersisted(steps)
    && JobsNotDeployed(failures) == FailedIn(more) && NotSynced !in failures
    && Elems(deployedJobs) == DeployedBy(more)
    && (prepared ==> Elems(x.jobs) == Hooked(steps, true) + Hooked(steps, false))
  }

  /** The steps of a wave that was prepared: its preparation, the hooks, and what the second loop did. */
  function PreparedSteps(wave: int, hooks: seq<Step>, more: seq<Attempt>, unstaged: Option<string>): seq<Step> {
    [Step(Prepare(wave), true)] + hooks + (StepsOf(more) + Cut(wave, unstaged))
  }

  function Cut(wave: int, unstaged: Option<string>): seq<Step> {
    if unstaged.None? then [] else [Step(Stage(wave, unstaged.value), false)]
  }

  lemma {:induction false} PreparedSums(
    wave: int, jobs: seq<string>, hooks: seq<Step>, planned: seq<Failure>, more: seq<Attempt>, unstaged: Option<string>)
    requires HooksRun(wave, jobs, planned, hooks) && forall a :: a in more ==> a.wave == wave
    ensures var steps := PreparedSteps(wave, hooks, more, unstaged);
      && Hooked(steps, true) == Hooked(hooks, true) && Hooked(steps, false) == Hooked(hooks, false)
      && Unpersisted(steps) == Unpersisted(StepsOf(more))
      && Whats(steps)
         == [Prepare(wave)] + Hookings(wave, jobs) + (Stagings(wave, JobsOf(more)) + Whats(Cut(wave, unstaged)))
      && NoneFatal([Step(Prepare(wave), true)] + hooks + StepsOf(more))
  {
    var first, deploys, cut := [Step(Prepare(wave), true)], StepsOf(more), Cut(wave, unstaged);
    OneStep(first[0]);
    StepsAdd(first, hooks);
    StepsAdd(first + hooks, deploys + cut);
    StepsAdd(first + hooks, deploys);
    StepsAdd(deploys, cut);
    StepsSum(more, wave);
    if unstaged.Some? {
      OneStep(cut[0]);
    }
  }

  lemma {:induction false} PreparedReports(
    x: Wave, hooks: seq<Step>, planned: seq<Failure>, more: seq<Attempt>, unstaged: Option<string>)
    requires HooksRun(x.number, x.jobs, planned, hooks) && forall a :: a in more ==> a.wave == x.number
    ensures WaveReports(
      x, PreparedSteps(x.number, hooks, more, unstaged), more, planned + FailuresOf(more), DeployedList(more), true)
  {
    PreparedSums(x.number, x.jobs, hooks, planned, more, unstaged);
    FailuresSum(more);
    JobsSum(more);
    FailuresAdd(planned, FailuresOf(more));
  }

  lemma {:induction false} WholeWave(x: Wave, hooks: seq<Step>, planned: seq<Failure>, more: seq<Attempt>)
    requires x.jobs != [] && HooksRun(x.number, x.jobs, planned, hooks) && forall a :: a in more ==> a.wave == x.number
    requires JobsOf(more) == x.toStage
    ensures WaveRan(x, PreparedSteps(x.number, hooks, more, None), more, None)
  {
    PreparedSums(x.number, x.jobs, hooks, planned, more, None);
    assert StepsOf(more) + [] == StepsOf(more);
  }

  lemma {:induction false} CutWave(x: Wave, hooks: seq<Step>, planned: seq<Failure>, more: seq<Attempt>, job: string)
    requires x.jobs != [] && HooksRun(x.number, x.jobs, planned, hooks) && forall a :: a in more ==> a.wave == x.number
    requires |more| < |x.toStage| && JobsOf(more) == x.toStage[..|more|] && x.toStage[|more|] == job
    ensures WaveRan(x, PreparedSteps(x.number, hooks, more, Some(job)), more, Some(NotStaged(x.number, job)))
  {
    var before := [Step(Prepare(x.number), true)] + hooks + StepsOf(more);
    var last := Step(Stage(x.number, job), false);
    PreparedSums(x.number, x.jobs, hooks, planned, more, Some(job));
    OneStep(last);
    assert PreparedSteps(x.number, hooks, more, Some(job)) == before + [last];
    assert (before + [last])[..|before|] == before;
    StagingsTake(x.number, x.toStage, |more|);
    PrefixJoins(
      [Prepare(x.number)] + Hookings(x.number, x.jobs), Stagings(x.number, JobsOf(more)) + [last.what],
      Stagings(x.number, x.toStage));
  }

  function EndingOf(wave: int, unstaged: Option<string>): Option<Ending> {
    if unstaged.None? then None else Some(NotStaged(wave, unstaged.value))
  }

  lemma {:induction false} EndsWave(
    x: Wave, hooks: seq<Step>, planned: seq<Failure>, more: seq<Attempt>, unstaged: Option<string>)
    requires x.jobs != [] && HooksRun(x.number, x.jobs, planned, hooks) && forall a :: a in more ==> a.wave == x.number
    requires |more| <= |x.toStage| && JobsOf(more) == x.toStage[..|more|]
    requires unstaged.None? ==> |more| == |x.toStage|
    requires unstaged.Some? ==> |more| < |x.toStage| && x.toStage[|more|] == unstaged.value
    ensures var steps := PreparedSteps(x.number, hooks, more, unstaged);
      && WaveRan(x, steps, more, EndingOf(x.number, unstaged))
      && WaveReports(x, steps, more, planned + FailuresOf(more), DeployedList(more), true)
      && Hooked(steps, true) == Hooked(hooks, true)
  {
    PreparedSums(x.number, x.jobs, hooks, planned, more, unstaged);
    PreparedReports(x, hooks, planned, more, unstaged);
    if unstaged.None? {
      assert x.toStage[..|more|] == x.toStage;
      WholeWave(x, hooks, planned, more);
    } else {
      CutWave(x, hooks, planned, more, unstaged.value);
    }
  }

  lemma PrefixJoins(a: seq<What>, b: seq<What>, c: seq<What>)
    requires b <= c
    ensures a + b <= a + c
  {
  }

  lemma {:induction false} StagingsTake(wave: int, jobs: seq<string>, n: nat)
    requires n < |jobs|
    ensures Stagings(wave, jobs[..n]) + [Stage(wave, jobs[n])] <= Stagings(wave, jobs)
    decreases |jobs|
  {
    var front := jobs[..|jobs| - 1];
    if n == |front| {
      assert jobs[..n] == front;
    } else {
      StagingsTake(wave, front, n);
      assert front[..n] == jobs[..n];
    }
  }

  /** One wave. */
  method RunWave(
    rt: Runtime, tx: Tx, s: Setup, deploymentSeq: int, opts: DeployOptions,
    ghost begun: Table, ghost p: Progress, ghost base: Trace, ghost log: seq<Attempt>)
    returns (
      ending: Option<Ending>, failures: seq<Failure>, deployedJobs: seq<string>,
      ghost x: Wave, ghost steps: seq<Step>, ghost more: seq<Attempt>, ghost q: Progress)
    requires Committed(begun, tx.table, s, opts.force, p) && deploymentSeq >= 0
    requires forall j :: NoDup(s.rollouts(j).catalog)
    requires Logs(log, base, rt.trace, Reconciled(begun), s, opts, deploymentSeq, {}, p.deployed)
    modifies rt, tx
    ensures Committed(begun, tx.table, s, opts.force, q)
    ensures Logs(log + more, base, rt.trace, Reconciled(begun), s, opts, deploymentSeq + 1, {}, q.deployed)
    ensures x.number == deploymentSeq && IsWave(x, begun, s)
    ensures rt.steps == old(rt.steps) + steps && WaveRan(x, steps, more, ending)
    ensures WaveReports(x, steps, more, failures, deployedJobs, ending.None? || ending.value.NotStaged?)
    ensures q.refreshed == p.refreshed + Hooked(steps, true) && q.staged == p.staged + Elems(x.toStage)
    ensures forall a :: a in more ==> a.wave == deploymentSeq
  {
    failures, deployedJobs, steps, more, q := [], [], [], [], p;
    var jobs := JobsOfWave(tx, s, deploymentSeq, opts.force, begun, p);
    x := Wave(deploymentSeq, jobs, []);
    NothingYet(log, rt.steps, p);
    if |jobs| == 0 {
      assert jobs == [];
      return None, failures, deployedJobs, x, steps, more, q;
    }
    var prepared := rt.Take(Prepare(deploymentSeq));
    if !prepared {
      steps := [Step(Prepare(deploymentSeq), false)];
      OneStep(steps[0]);
      return Some(NotPrepared(deploymentSeq)), failures, deployedJobs, x, steps, more, q;
    }
    ending, failures, deployedJobs, x, steps, more, q :=
      RunPrepared(rt, tx, s, deploymentSeq, jobs, opts, begun, p, base, log, old(rt.steps));
  }

  /** The jobs of a wave that the filter lets through. */
  method JobsOfWave(tx: Tx, s: Setup, deploymentSeq: int, ghost force: bool, ghost begun: Table, ghost p: Progress)
    returns (jobs: seq<string>)
    requires Committed(begun, tx.table, s, force, p) && deploymentSeq >= 0
    ensures NoDup(jobs) && WaveJobs(jobs, begun, s, deploymentSeq) && Elems(jobs) <= Visited(begun, s)
  {
    var available := Enumerate(JobsAt(tx.table, s.jobs, deploymentSeq));
    assert forall j :: j in available <==> j in Elems(available);
    jobs := SelectJobsForDeploy(available, s.filter);
    RunKeepsShape(begun, tx.table, s, force, p);
    WaveIsVisited(tx.table, s, deploymentSeq, begun, jobs);
  }

  /** The two loops of a wave whose workers are prepared. */
  method RunPrepared(
    rt: Runtime, tx: Tx, s: Setup, wave: int, jobs: seq<string>, opts: DeployOptions,
    ghost begun: Table, ghost p: Progress, ghost base: Trace, ghost log: seq<Attempt>, ghost start: seq<Step>)
    returns (
      ending: Option<Ending>, failures: seq<Failure>, deployedJobs: seq<string>,
      ghost x: Wave, ghost steps: seq<Step>, ghost more: seq<Attempt>, ghost q: Progress)
    requires Committed(begun, tx.table, s, opts.force, p) && wave >= 0
    requires jobs != [] && NoDup(jobs) && WaveJobs(jobs, begun, s, wave) && Elems(jobs) <= Visited(begun, s)
    requires forall j :: NoDup(s.rollouts(j).catalog)
    requires Logs(log, base, rt.trace, Reconciled(begun), s, opts, wave, {}, p.deployed)
    requires rt.steps == start + [Step(Prepare(wave), true)]
    modifies rt, tx
    ensures Committed(begun, tx.table, s, opts.force, q)
    ensures Logs(log + more, base, rt.trace, Reconciled(begun), s, opts, wave + 1, {}, q.deployed)
    ensures x.number == wave && x.jobs == jobs && IsWave(x, begun, s)
    ensures rt.steps == start + steps && WaveRan(x, steps, more, ending)
    ensures WaveReports(x, steps, more, failures, deployedJobs, true)
    ensures q.refreshed == p.refreshed + Hooked(steps, true) && q.staged == p.staged + Elems(x.toStage)
    ensures forall a :: a in more ==> a.wave == wave
    ensures ending.None? || ending.value.NotStaged?
  {
    ghost var t0 := Reconciled(begun);
    var jobsToStage, planned, unstaged, reported; ghost var hooks, planP;
    jobsToStage, planned, hooks, planP := PlanWave(rt, tx, s, wave, jobs, opts, t0, p);
    x := Wave(wave, jobs, jobsToStage);
    StagesMore(t0, s, opts, p, planP, Hooked(hooks, true), jobsToStage);
    ChosenJobs(x, hooks, planned, t0, s, opts.force, p, begun);
    unstaged, reported, deployedJobs, more, q := DeployWave(rt, tx, s, wave, jobsToStage, opts, t0, planP, base, log);
    failures := planned + reported;
    steps := PreparedSteps(wave, hooks, more, unstaged);
    EndsWave(x, hooks, planned, more, unstaged);
    JoinsSteps(start, [Step(Prepare(wave), true)], hooks, StepsOf(more), Cut(wave, unstaged));
    ending := EndingOf(wave, unstaged);
  }

  lemma NothingYet(log: seq<Attempt>, base: seq<Step>, p: Progress)
    ensures log + [] == log && base + [] == base && Whats([]) == [] && NoneFatal([]) && JobsOf([]) == []
    ensures p.refreshed + Hooked([], true) == p.refreshed && p.staged + Elems<string>([]) == p.staged
  {
  }

  lemma JoinsSteps(base: seq<Step>, a: seq<Step>, b: seq<Step>, c: seq<Step>, d: seq<Step>)
    ensures d == [] ==> ((base + a) + b) + c == base + (a + b + (c + d))
    ensures ((base + a) + b) + (c + d) == base + (a + b + (c + d))
  {
    assert d == [] ==> c + d == c;
  }

  /** What was chosen to be staged is a sublist of the wave's jobs, and visited. */
  lemma ChosenJobs(
    x: Wave, hooks: seq<Step>, planned: seq<Failure>, t0: Table, s: Setup, force: bool, p: Progress, begun: Table)
    requires HooksRun(x.number, x.jobs, planned, hooks) && Chooses(x.toStage, x.jobs, Hooked(hooks, true), t0, s, force, p)
    requires WaveJobs(x.jobs, begun, s, x.number)
    ensures Sublist(x.toStage, x.jobs)
    ensures forall j :: j in x.toStage ==> j in JobsAt(Reconciled(begun), s.jobs, x.number) && Chosen(s.filter, j)
  {
    forall j | j in x.toStage ensures j in x.jobs {
      assert j in Elems(x.jobs);
    }
  }
}
