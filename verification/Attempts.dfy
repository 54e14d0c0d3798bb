/** The record of a deploy: every job deployed in a wave, with what it left in the trace, and the loop that deploys them. */
module Attempts {
  import opened AllocationTable
  import opened DeployProgress
  import opened JobDeploy
  import opened Options
  import opened Reconcile
  import opened RolloutExecutor
  import opened RolloutPlanner
  import opened RolloutTrace
  import opened RunSteps
  import opened Seqs

  /**
    One job deployed in a wave: the table it began with, the phases of its rollout, what it left in the trace, how it
    ended, and whether the keys its commands stored were persisted.
   */
  datatype Attempt = Attempt(
    job: string, wave: int, table: Table, phases: seq<Phase>, part: Trace, deployed: bool, persisted: bool)

  function AttemptedBy(attempts: seq<Attempt>): set<string> {
    set a | a in attempts :: a.job
  }

  function DeployedBy(attempts: seq<Attempt>): set<string> {
    set a | a in attempts && a.deployed :: a.job
  }

  function FailedIn(attempts: seq<Attempt>): set<string> {
    set a | a in attempts && !a.deployed :: a.job
  }

  function AttemptsTrace(attempts: seq<Attempt>): Trace {
    if attempts == [] then [] else AttemptsTrace(attempts[..|attempts| - 1]) + attempts[|attempts| - 1].part
  }

  /** The rows a job is deployed on: those of the first table, refreshed, and promoted if the run deployed it before. */
  function RowsFor(t0: Table, s: Setup, job: string, again: bool): Table {
    var staged := RefreshJob(t0, job, s.trees);
    if again then PromoteJob(staged, job) else staged
  }

  /** A deploy of a chosen job of the wave on its own rows, with what such a deploy leaves; again only by force. */
  ghost predicate SoundAttempt(a: Attempt, t0: Table, s: Setup, opts: DeployOptions, before: set<string>) {
    && a.job in JobsAt(t0, s.jobs, a.wave) && Chosen(s.filter, a.job) && (opts.force || a.job !in before)
    && SameRows(a.table, RowsFor(t0, s, a.job, a.job in before), a.job)
    && DeployRun(a.table, a.job, s.rollouts(a.job), s.commands(a.job), opts, a.phases, a.part, a.deployed)
  }

  /** The attempts of a run in order: each sound where it stands, the waves in order, a job at most once in a wave. */
  ghost predicate Recorded(attempts: seq<Attempt>, t0: Table, s: Setup, opts: DeployOptions) {
    && (forall k {:trigger DeployedBy(attempts[..k])} :: 0 <= k < |attempts| ==>
          SoundAttempt(attempts[k], t0, s, opts, DeployedBy(attempts[..k])))
    && forall i, k :: 0 <= i < k < |attempts| ==>
         attempts[i].wave < attempts[k].wave
         || (attempts[i].wave == attempts[k].wave && attempts[i].job != attempts[k].job)
  }

  /** The trace so far is the record's, up to these jobs of this wave, and the deployed jobs are those it deployed. */
  ghost predicate Logs(
    log: seq<Attempt>, base: Trace, trace: Trace, t0: Table, s: Setup, opts: DeployOptions,
    wave: int, done: set<string>, deployed: set<string>)
  {
    && trace == base + AttemptsTrace(log) && Recorded(log, t0, s, opts)
    && deployed == DeployedBy(log) && forall a :: a in log ==> a.wave < wave || (a.wave == wave && a.job in done)
  }

  lemma {:induction false} RecordedSnoc(
    log: seq<Attempt>, t0: Table, s: Setup, opts: DeployOptions, before: set<string>, a: Attempt)
    requires Recorded(log, t0, s, opts) && before == DeployedBy(log) && SoundAttempt(a, t0, s, opts, before)
    requires forall x :: x in log ==> x.wave < a.wave || (x.wave == a.wave && x.job != a.job)
    ensures Recorded(log + [a], t0, s, opts)
  {
    forall k | 0 <= k < |log + [a]|
      ensures SoundAttempt((log + [a])[k], t0, s, opts, DeployedBy((log + [a])[..k]))
    {
      assert (log + [a])[..k] == log[..k];
      assert log[..|log|] == log;
    }
  }

  lemma {:induction false} AttemptsAdd(log: seq<Attempt>, a: Attempt)
    ensures AttemptsTrace(log + [a]) == AttemptsTrace(log) + a.part
    ensures AttemptedBy(log + [a]) == AttemptedBy(log) + {a.job}
    ensures DeployedBy(log + [a]) == if a.deployed then DeployedBy(log) + {a.job} else DeployedBy(log)
    ensures FailedIn(log + [a]) == if a.deployed then FailedIn(log) else FailedIn(log) + {a.job}
  {
    assert (log + [a])[..|log|] == log;
    assert a in [a];
  }

  lemma {:induction false} LogsSnoc(
    log: seq<Attempt>, base: Trace, trace: Trace, t0: Table, s: Setup, opts: DeployOptions, wave: int,
    done: set<string>, deployed: set<string>, a: Attempt)
    requires Logs(log, base, trace, t0, s, opts, wave, done, deployed) && SoundAttempt(a, t0, s, opts, deployed)
    requires a.wave == wave && a.job !in done
    ensures Logs(log + [a], base, trace + a.part, t0, s, opts, wave, done + {a.job}, DeployedBy(log + [a]))
  {
    RecordedSnoc(log, t0, s, opts, deployed, a);
    AttemptsAdd(log, a);
    Assoc(base, AttemptsTrace(log), a.part);
  }

  /** The rows of a refreshed job. */
  lemma RowsOfJob(t: Table, t0: Table, s: Setup, force: bool, p: Progress, job: string)
    requires Tracks(t, t0, s, force, p) && job in p.refreshed
    ensures SameRows(t, RowsFor(t0, s, job, job in p.deployed), job)
  {
  }

  ghost predicate SameRows(a: Table, b: Table, job: string) {
    forall slot: Slot :: slot.job == job ==> (slot in a <==> slot in b) && (slot in a ==> a[slot] == b[slot])
  }

  lemma ReconcileKeepsCalls(t: Table, s: Setup, job: string, again: bool, opts: DeployOptions, policy: JobPolicy)
    ensures WantedCalls(RowsFor(Reconciled(t), s, job, again), job, opts, policy)
         == WantedCalls(RowsFor(t, s, job, again), job, opts, policy)
  {
  }

  lemma SameRowsSameCalls(a: Table, b: Table, job: string, opts: DeployOptions, policy: JobPolicy)
    requires SameRows(a, b, job)
    ensures WantedCalls(a, job, opts, policy) == WantedCalls(b, job, opts, policy)
  {
  }

  lemma PromotesTrack(t: Table, t0: Table, s: Setup, opts: DeployOptions, p: Progress, job: string, ok: bool)
    requires Tracks(t, t0, s, opts.force, p) && job in p.staged && (opts.force || job !in p.deployed)
    ensures Tracks(
      DeployedRows(t, job, s.commands(job), opts, ok), t0, s, opts.force,
      if ok then p.(deployed := p.deployed + {job}) else p)
  {
    PromoteStep(t0, s.trees, p.refreshed, p.deployed, job);
    OutcomeNeeds(t0, s.trees, p.refreshed, p.deployed, job);
  }

  /** Hash the staged tree again, deploy, promote. */
  method DeployStagedJob(
    rt: Runtime, tx: Tx, s: Setup, job: string, wave: int, opts: DeployOptions, ghost t0: Table, ghost p: Progress)
    returns (deployed: bool, ghost a: Attempt)
    requires Tracks(tx.table, t0, s, opts.force, p)
    requires job in p.staged && (opts.force || job !in p.deployed)
    requires job in JobsAt(t0, s.jobs, wave) && Chosen(s.filter, job)
    requires NoDup(s.rollouts(job).catalog)
    modifies rt`trace, rt`choices, tx
    ensures Tracks(tx.table, t0, s, opts.force, if deployed then p.(deployed := p.deployed + {job}) else p)
    ensures rt.trace == old(rt.trace) + a.part
    ensures a.job == job && a.wave == wave && a.deployed == deployed && SoundAttempt(a, t0, s, opts, p.deployed)
  {
    Refreshes(tx.table, t0, s, opts.force, p, job);
    assert p.(refreshed := p.refreshed + {job}, staged := p.staged + {job}) == p;
    UpdateJobAllocationHashes(tx, job, s.trees);
    RowsOfJob(tx.table, t0, s, opts.force, p, job);
    ghost var table := tx.table;
    ghost var phases, part;
    deployed, phases, part := DeployJob(rt, tx, job, s.rollouts(job), s.commands(job), opts);
    PromotesTrack(table, t0, s, opts, p, job, deployed);
    a := Attempt(job, wave, table, phases, part, deployed, true);
  }

  /** What is reported of one job of the second loop. */
  function ReportOf(job: string, persisted: bool, deployed: bool): seq<Failure> {
    (if persisted then [] else [NotPersisted(job)]) + (if deployed then [] else [NotDeployed(job)])
  }

  lemma ReportNames(job: string, persisted: bool, deployed: bool)
    ensures var r := ReportOf(job, persisted, deployed);
      && JobsNotRefreshed(r) == {} && NotSynced !in r
      && JobsNotPersisted(r) == (if persisted then {} else {job})
      && JobsNotDeployed(r) == (if deployed then {} else {job})
  {
    OneFailure(NotPersisted(job));
    OneFailure(NotDeployed(job));
    FailuresAdd(if persisted then [] else [NotPersisted(job)], if deployed then [] else [NotDeployed(job)]);
  }

  function JobsOf(attempts: seq<Attempt>): seq<string> {
    seq(|attempts|, i requires 0 <= i < |attempts| => attempts[i].job)
  }

  /** What the second loop reports of its attempts, which of them it lists as deployed, and the steps it took. */
  function FailuresOf(attempts: seq<Attempt>): seq<Failure> {
    if attempts == [] then []
    else
      var a := attempts[|attempts| - 1];
      FailuresOf(attempts[..|attempts| - 1]) + ReportOf(a.job, a.persisted, a.deployed)
  }

  function DeployedList(attempts: seq<Attempt>): seq<string> {
    if attempts == [] then []
    else
      var a := attempts[|attempts| - 1];
      DeployedList(attempts[..|attempts| - 1]) + (if a.deployed then [a.job] else [])
  }

  function StepsOf(attempts: seq<Attempt>): seq<Step> {
    if attempts == [] then []
    else
      var a := attempts[|attempts| - 1];
      StepsOf(attempts[..|attempts| - 1]) + [Step(Stage(a.wave, a.job), true), Step(Persist(a.wave, a.job), a.persisted)]
  }

  lemma {:induction false} OneMore(attempts: seq<Attempt>, a: Attempt)
    ensures FailuresOf(attempts + [a]) == FailuresOf(attempts) + ReportOf(a.job, a.persisted, a.deployed)
    ensures DeployedList(attempts + [a]) == DeployedList(attempts) + (if a.deployed then [a.job] else [])
    ensures StepsOf(attempts + [a])
         == StepsOf(attempts) + [Step(Stage(a.wave, a.job), true), Step(Persist(a.wave, a.job), a.persisted)]
    ensures JobsOf(attempts + [a]) == JobsOf(attempts) + [a.job]
  {
    assert (attempts + [a])[..|attempts|] == attempts;
  }

  lemma {:induction false} FailuresSum(attempts: seq<Attempt>)
    ensures var failures := FailuresOf(attempts);
      && JobsNotRefreshed(failures) == {} && NotSynced !in failures && JobsNotDeployed(failures) == FailedIn(attempts)
    ensures JobsNotPersisted(FailuresOf(attempts)) == Unpersisted(StepsOf(attempts))
    decreases |attempts|
  {
    if attempts != [] {
      var front, a := attempts[..|attempts| - 1], attempts[|attempts| - 1];
      assert attempts == front + [a];
      FailuresSum(front);
      OneMore(front, a);
      AttemptsAdd(front, a);
      FailuresAdd(FailuresOf(front), ReportOf(a.job, a.persisted, a.deployed));
      ReportNames(a.job, a.persisted, a.deployed);
      StepsAdd(StepsOf(front), [Step(Stage(a.wave, a.job), true), Step(Persist(a.wave, a.job), a.persisted)]);
      TwoSteps(a);
    }
  }

  lemma {:induction false} JobsSum(attempts: seq<Attempt>)
    ensures Elems(DeployedList(attempts)) == DeployedBy(attempts)
    ensures Elems(JobsOf(attempts)) == AttemptedBy(attempts)
    decreases |attempts|
  {
    if attempts != [] {
      var front, a := attempts[..|attempts| - 1], attempts[|attempts| - 1];
      assert attempts == front + [a];
      JobsSum(front);
      OneMore(front, a);
      AttemptsAdd(front, a);
      ElemsSnoc(DeployedList(front), a.job);
      ElemsSnoc(JobsOf(front), a.job);
    }
  }

  lemma TwoSteps(a: Attempt)
    ensures var two := [Step(Stage(a.wave, a.job), true), Step(Persist(a.wave, a.job), a.persisted)];
      && Whats(two) == [Stage(a.wave, a.job), Persist(a.wave, a.job)] && NoneFatal(two)
      && Hooked(two, true) == {} && Hooked(two, false) == {}
      && Unpersisted(two) == (if a.persisted then {} else {a.job})
  {
    var staged, kept := Step(Stage(a.wave, a.job), true), Step(Persist(a.wave, a.job), a.persisted);
    assert [staged, kept] == [staged] + [kept];
    OneStep(staged);
    OneStep(kept);
    StepsAdd([staged], [kept]);
  }

  lemma {:induction false} StepsSum(attempts: seq<Attempt>, wave: int)
    requires forall a :: a in attempts ==> a.wave == wave
    ensures var steps := StepsOf(attempts);
      && Whats(steps) == Stagings(wave, JobsOf(attempts)) && NoneFatal(steps)
      && Hooked(steps, true) == {} && Hooked(steps, false) == {}
    decreases |attempts|
  {
    if attempts != [] {
      var front, a := attempts[..|attempts| - 1], attempts[|attempts| - 1];
      assert attempts == front + [a];
      StepsSum(front, wave);
      OneMore(front, a);
      TwoSteps(a);
      StepsAdd(StepsOf(front), [Step(Stage(a.wave, a.job), true), Step(Persist(a.wave, a.job), a.persisted)]);
      StagingsSnoc(wave, JobsOf(front), a.job);
    }
  }

  lemma {:induction false} StagingsSnoc(wave: int, done: seq<string>, job: string)
    ensures Stagings(wave, done + [job]) == Stagings(wave, done) + [Stage(wave, job), Persist(wave, job)]
  {
    assert (done + [job])[..|done|] == done;
  }

  /** One deploy and the persist after it, added to the record. */
  method DeployNext(
    rt: Runtime, tx: Tx, s: Setup, job: string, wave: int, opts: DeployOptions,
    ghost t0: Table, ghost p: Progress, ghost base: Trace, ghost log: seq<Attempt>, ghost done: set<string>)
    returns (deployed: bool, persisted: bool, ghost a: Attempt)
    requires Tracks(tx.table, t0, s, opts.force, p)
    requires job in p.staged && (opts.force || job !in p.deployed) && job !in done
    requires job in JobsAt(t0, s.jobs, wave) && Chosen(s.filter, job)
    requires NoDup(s.rollouts(job).catalog)
    requires Logs(log, base, rt.trace, t0, s, opts, wave, done, p.deployed)
    modifies rt, tx
    ensures rt.steps == old(rt.steps) + [Step(Persist(wave, job), persisted)]
    ensures a.job == job && a.wave == wave && a.deployed == deployed && a.persisted == persisted
    ensures var q := if deployed then p.(deployed := p.deployed + {job}) else p;
      && Tracks(tx.table, t0, s, opts.force, q)
      && Logs(log + [a], base, rt.trace, t0, s, opts, wave, done + {job}, q.deployed)
  {
    ghost var trace := rt.trace;
    deployed, a := DeployStagedJob(rt, tx, s, job, wave, opts, t0, p);
    persisted := rt.Take(Persist(wave, job));
    a := a.(persisted := persisted);
    LogsSnoc(log, base, trace, t0, s, opts, wave, done, p.deployed, a);
    AttemptsAdd(log, a);
  }

  /**
    Second loop of a wave: stage, sync, hash and deploy each job. A job that fails does not stop the others; only one
    that cannot be staged does.
   */
  method DeployWave(
    rt: Runtime, tx: Tx, s: Setup, wave: int, jobsToStage: seq<string>, opts: DeployOptions,
    ghost t0: Table, ghost p: Progress, ghost base: Trace, ghost log: seq<Attempt>)
    returns (
      unstaged: Option<string>, failures: seq<Failure>, deployedJobs: seq<string>,
      ghost more: seq<Attempt>, ghost q: Progress)
    requires Tracks(tx.table, t0, s, opts.force, p) && NoDup(jobsToStage) && Stageable(jobsToStage, p, opts)
    requires forall j :: j in jobsToStage ==> j in JobsAt(t0, s.jobs, wave) && Chosen(s.filter, j)
    requires forall j :: NoDup(s.rollouts(j).catalog)
    requires Logs(log, base, rt.trace, t0, s, opts, wave, {}, p.deployed)
    modifies rt, tx
    ensures Tracks(tx.table, t0, s, opts.force, q) && q == p.(deployed := q.deployed)
    ensures Logs(log + more, base, rt.trace, t0, s, opts, wave, Elems(jobsToStage), q.deployed)
    ensures |more| <= |jobsToStage| && JobsOf(more) == jobsToStage[..|more|] && forall a :: a in more ==> a.wave == wave
    ensures failures == FailuresOf(more) && deployedJobs == DeployedList(more)
    ensures unstaged.None? ==> |more| == |jobsToStage| && rt.steps == old(rt.steps) + StepsOf(more)
    ensures unstaged.Some? ==>
      && |more| < |jobsToStage| && jobsToStage[|more|] == unstaged.value
      && rt.steps == old(rt.steps) + (StepsOf(more) + [Step(Stage(wave, unstaged.value), false)])
  {
    q := p;
    failures, deployedJobs, more := [], [], [];
    assert log + more == log && jobsToStage[..0] == [] && JobsOf([]) == [];
    for i := 0 to |jobsToStage|
      invariant Tracks(tx.table, t0, s, opts.force, q) && q == p.(deployed := q.deployed)
      invariant Logs(log + more, base, rt.trace, t0, s, opts, wave, Elems(jobsToStage[..i]), q.deployed)
      invariant q.deployed <= p.deployed + Elems(jobsToStage[..i])
      invariant |more| == i && JobsOf(more) == jobsToStage[..i] && forall a :: a in more ==> a.wave == wave
      invariant failures == FailuresOf(more) && deployedJobs == DeployedList(more)
      invariant rt.steps == old(rt.steps) + StepsOf(more)
    {
      var job := jobsToStage[i];
      ElemsTake(jobsToStage, i);
      var staged := rt.Take(Stage(wave, job));
      if !staged {
        AppendsOne(old(rt.steps), StepsOf(more), Step(Stage(wave, job), false));
        return Some(job), failures, deployedJobs, more, q;
      }
      var deployed, persisted; ghost var a;
      deployed, persisted, a := DeployNext(rt, tx, s, job, wave, opts, t0, q, base, log + more, Elems(jobsToStage[..i]));
      OneMore(more, a);
      AppendsTwo(old(rt.steps), StepsOf(more), Step(Stage(wave, job), true), Step(Persist(wave, job), persisted));
      AppendsAttempt(log, more, a);
      more := more + [a];
      failures := failures + ReportOf(job, persisted, deployed);
      if !deployed {
        continue;
      }
      q := q.(deployed := q.deployed + {job});
      deployedJobs := deployedJobs + [job];
    }
    assert jobsToStage[..|jobsToStage|] == jobsToStage;
    unstaged := None;
  }

  lemma AppendsAttempt(log: seq<Attempt>, more: seq<Attempt>, a: Attempt)
    ensures (log + more) + [a] == log + (more + [a])
  {
  }
}
