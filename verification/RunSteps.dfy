/** The steps a deploy takes in each wave, what it reports of them, and its first loop: hooks, refresh, and what to stage. */
module RunSteps {
  import opened AllocationTable
  import opened DeployProgress
  import opened RolloutExecutor
  import opened RolloutPlanner
  import opened Seqs

  /** What a run goes on after: a job's hooks before the plan, its stored keys, its deploy, or the last sync. */
  datatype Failure = NotRefreshed(job: string) | NotPersisted(job: string) | NotDeployed(job: string) | NotSynced

  function JobsNotRefreshed(failures: seq<Failure>): set<string> {
    set f | f in failures && f.NotRefreshed? :: f.job
  }

  function JobsNotPersisted(failures: seq<Failure>): set<string> {
    set f | f in failures && f.NotPersisted? :: f.job
  }

  function JobsNotDeployed(failures: seq<Failure>): set<string> {
    set f | f in failures && f.NotDeployed? :: f.job
  }

  lemma FailuresAdd(a: seq<Failure>, b: seq<Failure>)
    ensures JobsNotRefreshed(a + b) == JobsNotRefreshed(a) + JobsNotRefreshed(b)
    ensures JobsNotPersisted(a + b) == JobsNotPersisted(a) + JobsNotPersisted(b)
    ensures JobsNotDeployed(a + b) == JobsNotDeployed(a) + JobsNotDeployed(b)
    ensures NotSynced in a + b <==> NotSynced in a || NotSynced in b
  {
  }

  lemma OneFailure(f: Failure)
    ensures JobsNotRefreshed([f]) == if f.NotRefreshed? then {f.job} else {}
    ensures JobsNotPersisted([f]) == if f.NotPersisted? then {f.job} else {}
    ensures JobsNotDeployed([f]) == if f.NotDeployed? then {f.job} else {}
    ensures NotSynced in [f] <==> f == NotSynced
  {
    assert f in [f];
  }

  /* ---- the steps of a run ---- */

  function Whats(steps: seq<Step>): seq<What> {
    seq(|steps|, i requires 0 <= i < |steps| => steps[i].what)
  }

  /** The steps that end a run when they fail; a failed hook, persist or final sync does not. */
  predicate Fatal(x: Step) {
    !x.ok && (x.what.Prerequisites? || x.what.Prepare? || x.what.Stage? || x.what.Commit?)
  }

  ghost predicate NoneFatal(steps: seq<Step>) {
    forall x :: x in steps ==> !Fatal(x)
  }

  /** The jobs whose pre-deploy hooks passed, or failed. */
  function Hooked(steps: seq<Step>, ok: bool): set<string> {
    set x | x in steps && x.what.PreDeploy? && x.ok == ok :: x.what.job
  }

  function Unpersisted(steps: seq<Step>): set<string> {
    set x | x in steps && x.what.Persist? && !x.ok :: x.what.job
  }

  lemma StepsAdd(a: seq<Step>, b: seq<Step>)
    ensures Whats(a + b) == Whats(a) + Whats(b)
    ensures Hooked(a + b, true) == Hooked(a, true) + Hooked(b, true)
    ensures Hooked(a + b, false) == Hooked(a, false) + Hooked(b, false)
    ensures Unpersisted(a + b) == Unpersisted(a) + Unpersisted(b)
    ensures NoneFatal(a + b) <==> NoneFatal(a) && NoneFatal(b)
  {
  }

  lemma OneStep(x: Step)
    ensures Whats([x]) == [x.what] && (NoneFatal([x]) <==> !Fatal(x))
    ensures Hooked([x], true) == if x.what.PreDeploy? && x.ok then {x.what.job} else {}
    ensures Hooked([x], false) == if x.what.PreDeploy? && !x.ok then {x.what.job} else {}
    ensures Unpersisted([x]) == if x.what.Persist? && !x.ok then {x.what.job} else {}
  {
    assert x in [x];
  }

  /** A wave: the jobs it took up, and those it went on to stage. */
  datatype Wave = Wave(number: int, jobs: seq<string>, toStage: seq<string>)

  function Hookings(wave: int, jobs: seq<string>): seq<What> {
    seq(|jobs|, i requires 0 <= i < |jobs| => PreDeploy(wave, jobs[i]))
  }

  function Stagings(wave: int, jobs: seq<string>): seq<What> {
    if jobs == [] then []
    else Stagings(wave, jobs[..|jobs| - 1]) + [Stage(wave, jobs[|jobs| - 1]), Persist(wave, jobs[|jobs| - 1])]
  }

  /** The steps of a whole wave: prepare the workers, the hooks of each job, then stage and persist each staged job. */
  function WaveScript(x: Wave): seq<What> {
    if x.jobs == [] then [] else [Prepare(x.number)] + Hookings(x.number, x.jobs) + Stagings(x.number, x.toStage)
  }

  function Script(waves: seq<Wave>): seq<What> {
    if waves == [] then [] else Script(waves[..|waves| - 1]) + WaveScript(waves[|waves| - 1])
  }

  /* ---- planning a wave ---- */

  /** The hooks of these jobs are run, and the failed ones reported. */
  ghost predicate HooksRun(wave: int, done: seq<string>, failures: seq<Failure>, steps: seq<Step>) {
    && Whats(steps) == Hookings(wave, done) && NoneFatal(steps) && Unpersisted(steps) == {}
    && Hooked(steps, true) + Hooked(steps, false) == Elems(done) && Hooked(steps, true) !! Hooked(steps, false)
    && JobsNotRefreshed(failures) == Hooked(steps, false)
    && JobsNotPersisted(failures) == {} && JobsNotDeployed(failures) == {} && NotSynced !in failures
  }

  /** The jobs chosen so far, in order: those whose hooks passed and that must be staged. */
  ghost predicate Chooses(
    jobsToStage: seq<string>, done: seq<string>, passed: set<string>, t0: Table, s: Setup, force: bool, p: Progress)
  {
    && NoDup(jobsToStage) && Sublist(jobsToStage, done)
    && forall j :: j in jobsToStage <==> j in passed && MustStage(t0, s, force, p, j)
  }

  /** The steps of the hooks, by their results; what they report; the jobs that passed; and those then to stage. */
  function HookSteps(wave: int, jobs: seq<string>, oks: seq<bool>): seq<Step>
    requires |jobs| == |oks|
  {
    seq(|jobs|, i requires 0 <= i < |jobs| => Step(PreDeploy(wave, jobs[i]), oks[i]))
  }

  function HookFailures(jobs: seq<string>, oks: seq<bool>): seq<Failure>
    requires |jobs| == |oks|
  {
    if jobs == [] then []
    else
      var n := |jobs| - 1;
      HookFailures(jobs[..n], oks[..n]) + (if oks[n] then [] else [NotRefreshed(jobs[n])])
  }

  function PassedHooks(jobs: seq<string>, oks: seq<bool>): set<string>
    requires |jobs| == |oks|
  {
    if jobs == [] then {}
    else
      var n := |jobs| - 1;
      PassedHooks(jobs[..n], oks[..n]) + (if oks[n] then {jobs[n]} else {})
  }

  ghost function ToStage(jobs: seq<string>, oks: seq<bool>, t0: Table, s: Setup, force: bool, p: Progress): seq<string>
    requires |jobs| == |oks|
  {
    if jobs == [] then []
    else
      var n := |jobs| - 1;
      ToStage(jobs[..n], oks[..n], t0, s, force, p)
      + (if oks[n] && MustStage(t0, s, force, p, jobs[n]) then [jobs[n]] else [])
  }

  lemma {:induction false} HooksSnoc(
    wave: int, jobs: seq<string>, oks: seq<bool>, t0: Table, s: Setup, force: bool, p: Progress, job: string, ok: bool)
    requires |jobs| == |oks|
    ensures HookSteps(wave, jobs + [job], oks + [ok]) == HookSteps(wave, jobs, oks) + [Step(PreDeploy(wave, job), ok)]
    ensures HookFailures(jobs + [job], oks + [ok])
         == HookFailures(jobs, oks) + (if ok then [] else [NotRefreshed(job)])
    ensures PassedHooks(jobs + [job], oks + [ok]) == PassedHooks(jobs, oks) + (if ok then {job} else {})
    ensures ToStage(jobs + [job], oks + [ok], t0, s, force, p)
         == ToStage(jobs, oks, t0, s, force, p) + (if ok && MustStage(t0, s, force, p, job) then [job] else [])
  {
    assert (jobs + [job])[..|jobs|] == jobs && (oks + [ok])[..|oks|] == oks;
  }

  lemma {:induction false} HooksSum(wave: int, jobs: seq<string>, oks: seq<bool>)
    requires |jobs| == |oks| && NoDup(jobs)
    ensures HooksRun(wave, jobs, HookFailures(jobs, oks), HookSteps(wave, jobs, oks))
    ensures Hooked(HookSteps(wave, jobs, oks), true) == PassedHooks(jobs, oks)
    decreases |jobs|
  {
    if jobs != [] {
      var n := |jobs| - 1;
      var step := Step(PreDeploy(wave, jobs[n]), oks[n]);
      HooksSum(wave, jobs[..n], oks[..n]);
      ElemsTake(jobs, n);
      assert jobs[..n + 1] == jobs;
      assert HookSteps(wave, jobs, oks) == HookSteps(wave, jobs[..n], oks[..n]) + [step];
      StepsAdd(HookSteps(wave, jobs[..n], oks[..n]), [step]);
      OneStep(step);
      FailuresAdd(HookFailures(jobs[..n], oks[..n]), [NotRefreshed(jobs[n])]);
      OneFailure(NotRefreshed(jobs[n]));
      assert Hookings(wave, jobs) == Hookings(wave, jobs[..n]) + [PreDeploy(wave, jobs[n])];
    }
  }

  lemma ChooseStep(
    jobsToStage: seq<string>, done: seq<string>, passed: set<string>, t0: Table, s: Setup, force: bool, p: Progress,
    job: string)
    requires Chooses(jobsToStage, done, passed, t0, s, force, p) && job !in passed
    ensures Chooses(jobsToStage, done + [job], passed, t0, s, force, p)
    ensures !MustStage(t0, s, force, p, job) ==> Chooses(jobsToStage, done + [job], passed + {job}, t0, s, force, p)
  {
    SublistSkips(jobsToStage, done, job);
  }

  lemma ChooseOne(
    jobsToStage: seq<string>, done: seq<string>, passed: set<string>, t0: Table, s: Setup, force: bool, p: Progress,
    job: string)
    requires Chooses(jobsToStage, done, passed, t0, s, force, p) && job !in passed && MustStage(t0, s, force, p, job)
    ensures Chooses(jobsToStage + [job], done + [job], passed + {job}, t0, s, force, p)
  {
    SublistTakes(jobsToStage, done, job);
  }

  lemma {:induction false} ToStageSpec(
    jobs: seq<string>, oks: seq<bool>, t0: Table, s: Setup, force: bool, p: Progress)
    requires |jobs| == |oks| && NoDup(jobs)
    ensures Chooses(ToStage(jobs, oks, t0, s, force, p), jobs, PassedHooks(jobs, oks), t0, s, force, p)
    ensures PassedHooks(jobs, oks) <= Elems(jobs)
    decreases |jobs|
  {
    if jobs != [] {
      var n := |jobs| - 1;
      var done, job, before := jobs[..n], jobs[n], oks[..n];
      ToStageSpec(done, before, t0, s, force, p);
      ElemsTake(jobs, n);
      var chosen, passed := ToStage(done, before, t0, s, force, p), PassedHooks(done, before);
      ChooseStep(chosen, done, passed, t0, s, force, p, job);
      if MustStage(t0, s, force, p, job) {
        ChooseOne(chosen, done, passed, t0, s, force, p, job);
      }
      assert done + [job] == jobs && before + [oks[n]] == oks;
      HooksSnoc(0, done, before, t0, s, force, p, job, oks[n]);
      assert ToStage(done, before, t0, s, force, p) + [] == ToStage(done, before, t0, s, force, p);
    }
  }

  /** First loop of a wave: pre-deploy hooks, refresh, and the decision to stage. */
  method PlanWave(
    rt: Runtime, tx: Tx, s: Setup, wave: int, jobs: seq<string>, opts: DeployOptions, ghost t0: Table, ghost p: Progress)
    returns (jobsToStage: seq<string>, failures: seq<Failure>, ghost steps: seq<Step>, ghost q: Progress)
    requires Tracks(tx.table, t0, s, opts.force, p) && NoDup(jobs)
    modifies rt`steps, tx
    ensures rt.steps == old(rt.steps) + steps && HooksRun(wave, jobs, failures, steps)
    ensures Tracks(tx.table, t0, s, opts.force, q)
    ensures q.deployed == p.deployed && q.refreshed == p.refreshed + Hooked(steps, true)
    ensures Chooses(jobsToStage, jobs, Hooked(steps, true), t0, s, opts.force, p)
  {
    q := p;
    jobsToStage, failures := [], [];
    ghost var oks: seq<bool> := [];
    for i := 0 to |jobs|
      invariant |oks| == i && rt.steps == old(rt.steps) + HookSteps(wave, jobs[..i], oks)
      invariant failures == HookFailures(jobs[..i], oks)
      invariant jobsToStage == ToStage(jobs[..i], oks, t0, s, opts.force, p)
      invariant Tracks(tx.table, t0, s, opts.force, q)
      invariant q.deployed == p.deployed && q.refreshed == p.refreshed + PassedHooks(jobs[..i], oks)
    {
      var job := jobs[i];
      assert jobs[..i + 1] == jobs[..i] + [job];
      var preDeploy := rt.Take(PreDeploy(wave, job));
      HooksSnoc(wave, jobs[..i], oks, t0, s, opts.force, p, job, preDeploy);
      AppendsOne(old(rt.steps), HookSteps(wave, jobs[..i], oks), Step(PreDeploy(wave, job), preDeploy));
      oks := oks + [preDeploy];
      if !preDeploy {
        failures := failures + [NotRefreshed(job)];
        continue;
      }
      var stage;
      stage, q := PlanOneJob(tx, s, job, opts, t0, q);
      if !stage {
        continue;
      }
      jobsToStage := jobsToStage + [job];
    }
    assert jobs[..|jobs|] == jobs;
    steps := HookSteps(wave, jobs, oks);
    HooksSum(wave, jobs, oks);
    ToStageSpec(jobs, oks, t0, s, opts.force, p);
  }

  /** A job to stage is staged, and deployed before only under force. */
  ghost predicate Stageable(jobsToStage: seq<string>, p: Progress, opts: DeployOptions) {
    forall j :: j in jobsToStage ==> j in p.staged && (opts.force || j !in p.deployed)
  }

  /** The jobs to stage are those that were not staged before, and staged ones to be deployed again. */
  lemma StagesMore(
    t0: Table, s: Setup, opts: DeployOptions, p: Progress, q: Progress, planned: set<string>, jobsToStage: seq<string>)
    requires Decides(p, t0, s, opts.force) && Decides(q, t0, s, opts.force)
    requires q.deployed == p.deployed && q.refreshed == p.refreshed + planned
    requires forall j :: j in jobsToStage <==> j in planned && MustStage(t0, s, opts.force, p, j)
    ensures Stageable(jobsToStage, q, opts)
    ensures p.staged + Elems(jobsToStage) == q.staged
  {
    forall j ensures j in p.staged + Elems(jobsToStage) <==> j in q.staged {
      assert j in Elems(jobsToStage) <==> j in jobsToStage;
    }
  }

  /* ---- putting steps together ---- */

  lemma AppendsOne(base: seq<Step>, steps: seq<Step>, a: Step)
    ensures (base + steps) + [a] == base + (steps + [a])
  {
  }

  lemma AppendsTwo(base: seq<Step>, steps: seq<Step>, a: Step, b: Step)
    ensures ((base + steps) + [a]) + [b] == base + (steps + [a, b])
  {
  }

  lemma WhatsAdd(a: seq<Step>, b: seq<Step>)
    ensures Whats(a + b) == Whats(a) + Whats(b)
  {
  }

  lemma FatalAdds(a: seq<Step>, b: seq<Step>)
    ensures NoneFatal(a + b) <==> NoneFatal(a) && NoneFatal(b)
  {
  }

  lemma JoinsMore(base: seq<Step>, steps: seq<Step>, more: seq<Step>)
    ensures (base + steps) + more == base + (steps + more)
  {
  }
}
