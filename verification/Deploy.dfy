/**
  A whole deploy: reconcile, then wave by wave refresh the plans, stage what needs it and deploy job by job, then
  commit what succeeded. A later run takes up exactly what is left.
 */
module Deploy {
  import opened AllocationTable
  import opened Attempts
  import opened DeployProgress
  import opened DeployWaves
  import opened Options
  import opened Reconcile
  import opened RolloutExecutor
  import opened RolloutPlanner
  import opened RolloutTrace
  import opened RunSteps
  import opened Seqs

  /** The run has gone well so far: whole waves, every step but hooks and persists passed, everything staged attempted. */
  ghost predicate GoingWell(
    log: RunLog, p: Progress, failures: seq<Failure>, begun: Table, s: Setup, opts: DeployOptions, wave: int)
  {
    && |log.waves| == wave && WavesOf(log.waves, begun, s)
    && OnScript(log.steps, log.waves) && Done(log.attempts) == Agenda(log.waves)
    && Balanced(p, Reconciled(begun), s, opts, log)
    && Reported(failures, log) && NotSynced !in failures
    && Covered(begun, s, wave, log.steps)
  }

  /** Every step of these waves was taken, and none failed that ends a run. */
  ghost predicate OnScript(steps: seq<Step>, waves: seq<Wave>) {
    Whats(steps) == [Prerequisites] + Script(waves) && NoneFatal(steps)
  }

  lemma {:induction false} ScriptSnoc(waves: seq<Wave>, x: Wave)
    ensures [Prerequisites] + Script(waves + [x]) == ([Prerequisites] + Script(waves)) + WaveScript(x)
  {
    assert (waves + [x])[..|waves|] == waves;
    Regroup([Prerequisites], Script(waves), WaveScript(x));
  }

  lemma Regroup(a: seq<What>, b: seq<What>, c: seq<What>)
    ensures (a + b) + c == a + (b + c)
  {
  }

  lemma {:induction false} ScriptMore(steps: seq<Step>, waves: seq<Wave>, more: seq<Step>, x: Wave)
    requires OnScript(steps, waves) && Whats(more) == WaveScript(x) && NoneFatal(more)
    ensures OnScript(steps + more, waves + [x])
  {
    WhatsAdd(steps, more);
    FatalAdds(steps, more);
    ScriptSnoc(waves, x);
  }

  lemma {:induction false} AgendaMore(
    attempts: seq<Attempt>, waves: seq<Wave>, more: seq<Attempt>, x: Wave)
    requires Done(attempts) == Agenda(waves) && JobsOf(more) == x.toStage && forall a :: a in more ==> a.wave == x.number
    ensures Done(attempts + more) == Agenda(waves + [x])
  {
    DoneAdds(attempts, more);
    DoneIs(more, x.number, x.toStage);
    WavesSnoc(waves, x);
  }

  function WithWave(log: RunLog, x: Wave, steps: seq<Step>, more: seq<Attempt>): RunLog {
    RunLog(log.reconcile, log.steps + steps, log.waves + [x], log.attempts + more)
  }

  lemma {:induction false} WavesSnoc(waves: seq<Wave>, x: Wave)
    ensures Script(waves + [x]) == Script(waves) + WaveScript(x)
    ensures Agenda(waves + [x]) == Agenda(waves) + PlansOf(x.number, x.toStage)
    ensures Scheduled(waves + [x]) == Scheduled(waves) + Elems(x.toStage)
  {
    assert (waves + [x])[..|waves|] == waves;
    var plans := PlansOf(x.number, x.toStage);
    forall j ensures j in Scheduled(waves + [x]) <==> j in Scheduled(waves) + Elems(x.toStage) {
      if j in x.toStage {
        var i :| 0 <= i < |x.toStage| && x.toStage[i] == j;
        assert plans[i] in Agenda(waves + [x]);
      }
    }
  }

  lemma {:induction false} DoneAdds(a: seq<Attempt>, b: seq<Attempt>)
    ensures Done(a + b) == Done(a) + Done(b)
    ensures DeployedBy(a + b) == DeployedBy(a) + DeployedBy(b) && FailedIn(a + b) == FailedIn(a) + FailedIn(b)
  {
  }

  lemma DoneIs(more: seq<Attempt>, wave: int, jobs: seq<string>)
    requires JobsOf(more) == jobs && forall a :: a in more ==> a.wave == wave
    ensures Done(more) == PlansOf(wave, jobs)
  {
    forall i | 0 <= i < |more| ensures Done(more)[i] == PlansOf(wave, jobs)[i] {
      assert more[i] in more && JobsOf(more)[i] == more[i].job;
    }
  }

  lemma ReportsMore(
    log: RunLog, failures: seq<Failure>, x: Wave, steps: seq<Step>, more: seq<Attempt>, reported: seq<Failure>,
    deployedJobs: seq<string>, prepared: bool)
    requires Reported(failures, log) && WaveReports(x, steps, more, reported, deployedJobs, prepared)
    ensures Reported(failures + reported, WithWave(log, x, steps, more))
    ensures NotSynced in failures + reported <==> NotSynced in failures
  {
    FailuresAdd(failures, reported);
    StepsAdd(log.steps, steps);
    DoneAdds(log.attempts, more);
  }

  lemma BalanceMore(
    log: RunLog, p: Progress, q: Progress, x: Wave, steps: seq<Step>, more: seq<Attempt>,
    t0: Table, s: Setup, opts: DeployOptions)
    requires Balanced(p, t0, s, opts, log) && Decides(q, t0, s, opts.force)
    requires Recorded(log.attempts + more, t0, s, opts) && q.deployed == DeployedBy(log.attempts + more)
    requires q.refreshed == p.refreshed + Hooked(steps, true) && q.staged == p.staged + Elems(x.toStage)
    ensures Balanced(q, t0, s, opts, WithWave(log, x, steps, more))
  {
    StepsAdd(log.steps, steps);
    WavesSnoc(log.waves, x);
  }

  lemma {:induction false} WaveGoesWell(
    log: RunLog, p: Progress, q: Progress, failures: seq<Failure>, begun: Table, s: Setup, opts: DeployOptions, wave: int,
    x: Wave, steps: seq<Step>, more: seq<Attempt>, reported: seq<Failure>, deployedJobs: seq<string>)
    requires GoingWell(log, p, failures, begun, s, opts, wave)
    requires x.number == wave && IsWave(x, begun, s) && WaveRan(x, steps, more, None)
    requires forall a :: a in more ==> a.wave == wave
    requires WaveReports(x, steps, more, reported, deployedJobs, true)
    requires Balanced(q, Reconciled(begun), s, opts, WithWave(log, x, steps, more))
    ensures GoingWell(WithWave(log, x, steps, more), q, failures + reported, begun, s, opts, wave + 1)
  {
    ReportsMore(log, failures, x, steps, more, reported, deployedJobs, true);
    WavesGrow(log.waves, x, begun, s);
    ScriptMore(log.steps, log.waves, steps, x);
    AgendaMore(log.attempts, log.waves, more, x);
    CoversMore(begun, s, wave, x.jobs, log.steps, steps);
  }

  /** The last step failed, and it alone ends runs; the steps are the script's up to there. */
  ghost predicate StoppedAt(steps: seq<Step>, waves: seq<Wave>, what: What) {
    && steps != [] && steps[|steps| - 1] == Step(what, false) && NoneFatal(steps[..|steps| - 1])
    && Whats(steps) <= [Prerequisites] + Script(waves)
  }

  /** The attempts are those of the agenda before this one, which was not made. */
  ghost predicate CutBefore(attempts: seq<Attempt>, waves: seq<Wave>, next: Planned) {
    && |attempts| < |Agenda(waves)| && Done(attempts) == Agenda(waves)[..|attempts|]
    && Agenda(waves)[|attempts|] == next
  }

  /** All waves were run and all that was staged was attempted; what remained was the final sync and the commit. */
  ghost predicate RanAll(log: RunLog, begun: Table, s: Setup, commit: bool) {
    && log.steps != [] && log.steps[|log.steps| - 1] == Step(Commit, commit)
    && NoneFatal(log.steps[..|log.steps| - 1])
    && Whats(log.steps)
       == [Prerequisites] + Script(log.waves) + (if DeployedBy(log.attempts) == {} then [Commit] else [FinalSync, Commit])
    && Done(log.attempts) == Agenda(log.waves)
    && (forall slot :: slot in begun ==> begun[slot].deploymentSeq < |log.waves|)
    && Covered(begun, s, |log.waves|, log.steps)
  }

  /** What each ending means. */
  ghost predicate Ends(ending: Ending, log: RunLog, begun: Table, s: Setup, catalog: set<string>) {
    match ending
    case NotReady => log == RunLog(Pass([], [], []), [Step(Prerequisites, false)], [], [])
    case NotReconciled =>
      && IsPass(log.reconcile, begun, catalog, false)
      && log.steps == [Step(Prerequisites, true)] && log.waves == [] && log.attempts == []
    case NotPrepared(wave) =>
      && IsPass(log.reconcile, begun, catalog, true) && StoppedAt(log.steps, log.waves, Prepare(wave))
      && Done(log.attempts) == Agenda(log.waves) && Covered(begun, s, wave, log.steps)
    case NotStaged(wave, job) =>
      && IsPass(log.reconcile, begun, catalog, true) && StoppedAt(log.steps, log.waves, Stage(wave, job))
      && CutBefore(log.attempts, log.waves, Planned(wave, job)) && Covered(begun, s, wave + 1, log.steps)
    case NotCommitted => IsPass(log.reconcile, begun, catalog, true) && RanAll(log, begun, s, false)
    case Complete => IsPass(log.reconcile, begun, catalog, true) && RanAll(log, begun, s, true)
  }

  lemma {:induction false} ScriptStops(steps: seq<Step>, waves: seq<Wave>, more: seq<Step>, x: Wave, what: What)
    requires OnScript(steps, waves) && more != [] && more[|more| - 1] == Step(what, false)
    requires NoneFatal(more[..|more| - 1]) && Whats(more) <= WaveScript(x)
    ensures StoppedAt(steps + more, waves + [x], what)
  {
    WhatsAdd(steps, more);
    FatalAdds(steps, more[..|more| - 1]);
    LastOfSum(steps, more);
    ScriptSnoc(waves, x);
    PrefixJoins([Prerequisites] + Script(waves), Whats(more), WaveScript(x));
  }

  lemma {:induction false} AgendaCut(attempts: seq<Attempt>, waves: seq<Wave>, more: seq<Attempt>, x: Wave)
    requires Done(attempts) == Agenda(waves) && forall a :: a in more ==> a.wave == x.number
    requires |more| < |x.toStage| && JobsOf(more) == x.toStage[..|more|]
    ensures CutBefore(attempts + more, waves + [x], Planned(x.number, x.toStage[|more|]))
  {
    DoneAdds(attempts, more);
    DoneIs(more, x.number, x.toStage[..|more|]);
    WavesSnoc(waves, x);
    PlansTake(x, |more|);
    assert Agenda(waves + [x])[..|attempts + more|] == Agenda(waves) + PlansOf(x.number, x.toStage)[..|more|];
  }

  lemma {:induction false} WaveEnds(
    log: RunLog, begun: Table, s: Setup, wave: int, x: Wave, steps: seq<Step>, more: seq<Attempt>, ending: Ending,
    catalog: set<string>)
    requires OnScript(log.steps, log.waves) && Done(log.attempts) == Agenda(log.waves)
    requires Covered(begun, s, wave, log.steps) && IsPass(log.reconcile, begun, catalog, true)
    requires x.number == wave && WaveJobs(x.jobs, begun, s, wave) && WaveRan(x, steps, more, Some(ending))
    requires forall a :: a in more ==> a.wave == wave
    requires ending.NotStaged? ==> Elems(x.jobs) == Hooked(steps, true) + Hooked(steps, false)
    ensures Ends(ending, WithWave(log, x, steps, more), begun, s, catalog)
  {
    if ending.NotStaged? {
      ScriptStops(log.steps, log.waves, steps, x, Stage(wave, ending.job));
      CoversMore(begun, s, wave, x.jobs, log.steps, steps);
      AgendaCut(log.attempts, log.waves, more, x);
    } else {
      OneStep(steps[0]);
      assert steps[..0] == [];
      ScriptStops(log.steps, log.waves, steps, x, Prepare(wave));
      CoversStay(begun, s, wave, log.steps, steps);
      AgendaMore(log.attempts, log.waves, more, x);
    }
  }

  lemma PlansTake(x: Wave, n: nat)
    requires n < |x.toStage|
    ensures PlansOf(x.number, x.toStage)[..n] == PlansOf(x.number, x.toStage[..n])
    ensures PlansOf(x.number, x.toStage)[n] == Planned(x.number, x.toStage[n])
  {
  }

  lemma CoversStay(begun: Table, s: Setup, wave: int, steps: seq<Step>, more: seq<Step>)
    requires Covered(begun, s, wave, steps)
    ensures Covered(begun, s, wave, steps + more)
  {
    StepsAdd(steps, more);
  }

  lemma LogsWave(
    log: seq<Attempt>, more: seq<Attempt>, base: Trace, trace: Trace, t0: Table, s: Setup, opts: DeployOptions,
    wave: int, deployed: set<string>)
    requires Logs(log + more, base, trace, t0, s, opts, wave, {}, deployed)
    ensures Recorded(log + more, t0, s, opts) && deployed == DeployedBy(log + more)
  {
  }

  lemma WavesGrow(waves: seq<Wave>, x: Wave, begun: Table, s: Setup)
    requires WavesOf(waves, begun, s) && x.number == |waves| && IsWave(x, begun, s)
    ensures WavesOf(waves + [x], begun, s)
  {
  }

  lemma NothingRan(trace: Trace, begun: Table, s: Setup, opts: DeployOptions, log: RunLog)
    requires log.waves == [] && log.attempts == [] && |log.steps| == 1 && log.steps[0].what == Prerequisites
    ensures WavesOf(log.waves, begun, s) && Balanced(START, Reconciled(begun), s, opts, log)
    ensures PassTrace(Pass([], [], [])) == [] && trace + [] == trace && AttemptsTrace([]) == []
    ensures Logs([], trace, trace, Reconciled(begun), s, opts, 0, {}, {})
  {
    assert log.steps == [log.steps[0]];
    OneStep(log.steps[0]);
    assert trace + AttemptsTrace([]) == trace;
  }

  lemma StartsWell(begun: Table, s: Setup, opts: DeployOptions, log: RunLog)
    requires log.waves == [] && log.attempts == [] && log.steps == [Step(Prerequisites, true)]
    requires Balanced(START, Reconciled(begun), s, opts, log)
    ensures Committed(begun, Reconciled(begun), s, opts.force, START)
    ensures GoingWell(log, START, [], begun, s, opts, 0)
  {
    OneStep(log.steps[0]);
    assert Whats(log.steps) == [Prerequisites] + [];
  }

  /** The end of a run that went well through all waves: the final sync if something was deployed, and the commit. */
  function LastSteps(synced: Option<bool>, commit: bool): seq<Step> {
    (if synced.Some? then [Step(FinalSync, synced.value)] else []) + [Step(Commit, commit)]
  }

  lemma {:induction false} LastSums(synced: Option<bool>, commit: bool)
    ensures var last := LastSteps(synced, commit);
      && Whats(last) == (if synced.Some? then [FinalSync, Commit] else [Commit])
      && Hooked(last, true) == {} && Hooked(last, false) == {} && Unpersisted(last) == {}
      && last[|last| - 1] == Step(Commit, commit) && NoneFatal(last[..|last| - 1])
      && (Step(FinalSync, false) in last <==> synced == Some(false))
  {
    var sync := if synced.Some? then [Step(FinalSync, synced.value)] else [];
    StepsAdd(sync, [Step(Commit, commit)]);
    OneStep(Step(Commit, commit));
    if synced.Some? {
      OneStep(sync[0]);
    }
    assert LastSteps(synced, commit)[..|sync|] == sync;
  }

  lemma {:induction false} RunsToEnd(
    log: RunLog, begun: Table, s: Setup, synced: Option<bool>, commit: bool)
    requires OnScript(log.steps, log.waves) && Done(log.attempts) == Agenda(log.waves)
    requires Covered(begun, s, |log.waves|, log.steps)
    requires forall slot :: slot in begun ==> begun[slot].deploymentSeq < |log.waves|
    requires synced.Some? <==> DeployedBy(log.attempts) != {}
    ensures RanAll(log.(steps := log.steps + LastSteps(synced, commit)), begun, s, commit)
  {
    var last := LastSteps(synced, commit);
    LastSums(synced, commit);
    StepsAdd(log.steps, last);
    StepsAdd(log.steps, last[..|last| - 1]);
    LastOfSum(log.steps, last);
    CoversStay(begun, s, |log.waves|, log.steps, last);
  }

  lemma {:induction false} EndBalance(
    log: RunLog, p: Progress, t0: Table, s: Setup, opts: DeployOptions, synced: Option<bool>, commit: bool)
    requires Balanced(p, t0, s, opts, log)
    ensures Balanced(p, t0, s, opts, log.(steps := log.steps + LastSteps(synced, commit)))
  {
    LastSums(synced, commit);
    StepsAdd(log.steps, LastSteps(synced, commit));
  }

  lemma StepsAreWhats(steps: seq<Step>, x: Step)
    ensures x in steps ==> x.what in Whats(steps)
  {
    if x in steps {
      var i :| 0 <= i < |steps| && steps[i] == x;
      assert Whats(steps)[i] == x.what;
    }
  }

  lemma {:induction false} ScriptHasNoSync(waves: seq<Wave>)
    ensures FinalSync !in Script(waves)
  {
    if waves != [] {
      var x := waves[|waves| - 1];
      ScriptHasNoSync(waves[..|waves| - 1]);
      StagingsHaveNoSync(x.number, x.toStage);
    }
  }

  lemma {:induction false} StagingsHaveNoSync(wave: int, jobs: seq<string>)
    ensures FinalSync !in Stagings(wave, jobs)
  {
    if jobs != [] {
      StagingsHaveNoSync(wave, jobs[..|jobs| - 1]);
    }
  }

  lemma {:induction false} EndReports(log: RunLog, failures: seq<Failure>, synced: Option<bool>, commit: bool)
    requires OnScript(log.steps, log.waves) && Reported(failures, log) && NotSynced !in failures
    ensures var end := log.(steps := log.steps + LastSteps(synced, commit));
      var all := if synced == Some(false) then failures + [NotSynced] else failures;
      Reported(all, end) && (NotSynced in all <==> Step(FinalSync, false) in end.steps)
  {
    var last := LastSteps(synced, commit);
    LastSums(synced, commit);
    StepsAdd(log.steps, last);
    FailuresAdd(failures, [NotSynced]);
    OneFailure(NotSynced);
    ScriptHasNoSync(log.waves);
    StepsAreWhats(log.steps, Step(FinalSync, false));
  }

  /** A complete run's reports, against all that it was to visit. */
  lemma {:induction false} AllAccounted(
    log: RunLog, p: Progress, failures: seq<Failure>, begun: Table, after: Table, s: Setup, opts: DeployOptions)
    requires Committed(begun, after, s, opts.force, p) && WavesOf(log.waves, begun, s)
    requires RanAll(log, begun, s, true) && Balanced(p, Reconciled(begun), s, opts, log) && Reported(failures, log)
    ensures Accounted(p, failures, log.attempts, Visited(begun, s))
    ensures p.refreshed + JobsNotRefreshed(failures) == Visited(begun, s)
  {
    HookedAreVisited(log, begun, s);
    AttemptsAreScheduled(log);
    forall j | j in Visited(begun, s) ensures j in p.refreshed + JobsNotRefreshed(failures) {
      var slot :| slot in begun && !begun[slot].removed && begun[slot].deploymentSeq >= 0 && slot.job in s.jobs
        && Chosen(s.filter, slot.job) && slot.job == j;
    }
  }

  lemma {:induction false} AttemptsAreScheduled(log: RunLog)
    requires Done(log.attempts) == Agenda(log.waves)
    ensures AttemptedBy(log.attempts) == Scheduled(log.waves)
  {
    var done := Done(log.attempts);
    forall j ensures j in AttemptedBy(log.attempts) <==> j in Scheduled(log.waves) {
      if j in AttemptedBy(log.attempts) {
        var i :| 0 <= i < |log.attempts| && log.attempts[i].job == j;
        assert done[i] in Agenda(log.waves) && done[i].job == j;
      }
      if j in Scheduled(log.waves) {
        var x :| x in done && x.job == j;
        var i :| 0 <= i < |done| && done[i] == x;
        assert log.attempts[i] in log.attempts;
      }
    }
  }

  lemma {:induction false} ScriptHooks(waves: seq<Wave>, begun: Table, s: Setup, wave: int, job: string)
    requires WavesOf(waves, begun, s) && PreDeploy(wave, job) in Script(waves)
    ensures job in Visited(begun, s)
    decreases |waves|
  {
    var n := |waves| - 1;
    if PreDeploy(wave, job) in Script(waves[..n]) {
      ScriptHooks(waves[..n], begun, s, wave, job);
    } else {
      var x := waves[n];
      StagingsHaveNoHooks(x.number, x.toStage, wave, job);
      assert PreDeploy(wave, job) in Hookings(x.number, x.jobs);
      assert job in x.jobs;
      assert job in JobsAt(Reconciled(begun), s.jobs, n);
    }
  }

  lemma {:induction false} StagingsHaveNoHooks(wave: int, jobs: seq<string>, w: int, job: string)
    ensures PreDeploy(w, job) !in Stagings(wave, jobs)
  {
    if jobs != [] {
      StagingsHaveNoHooks(wave, jobs[..|jobs| - 1], w, job);
    }
  }

  lemma {:induction false} HookedAreVisited(log: RunLog, begun: Table, s: Setup)
    requires WavesOf(log.waves, begun, s) && RanAll(log, begun, s, true)
    ensures Hooked(log.steps, true) + Hooked(log.steps, false) <= Visited(begun, s)
  {
    forall j | j in Hooked(log.steps, true) + Hooked(log.steps, false) ensures j in Visited(begun, s) {
      var x :| x in log.steps && x.what.PreDeploy? && x.what.job == j;
      StepsAreWhats(log.steps, x);
      HookInScript(Whats(log.steps), Script(log.waves), x.what);
      ScriptHooks(log.waves, begun, s, x.what.wave, j);
    }
  }

  lemma HookInScript(whats: seq<What>, script: seq<What>, hook: What)
    requires whats == [Prerequisites] + script + [Commit] || whats == [Prerequisites] + script + [FinalSync, Commit]
    requires hook in whats && hook.PreDeploy?
    ensures hook in script
  {
  }

  lemma JoinsLast(base: seq<Step>, steps: seq<Step>, synced: Option<bool>, commit: bool)
    ensures synced.None? ==> (base + steps) + [Step(Commit, commit)] == base + (steps + LastSteps(synced, commit))
    ensures synced.Some? ==>
      ((base + steps) + [Step(FinalSync, synced.value)]) + [Step(Commit, commit)] == base + (steps + LastSteps(synced, commit))
  {
  }

  /** The next wave, added to the log of the run. */
  method RunNextWave(
    rt: Runtime, tx: Tx, s: Setup, wave: int, opts: DeployOptions, ghost failures: seq<Failure>,
    ghost begun: Table, ghost p: Progress, ghost start: seq<Step>, ghost base: Trace, ghost log: RunLog,
    ghost catalog: set<string>)
    returns (
      ending: Option<Ending>, reported: seq<Failure>, deployedJobs: seq<string>, ghost next: RunLog, ghost q: Progress)
    requires Committed(begun, tx.table, s, opts.force, p) && wave >= 0
    requires forall j :: NoDup(s.rollouts(j).catalog)
    requires Logs(log.attempts, base, rt.trace, Reconciled(begun), s, opts, wave, {}, p.deployed)
    requires GoingWell(log, p, failures, begun, s, opts, wave) && IsPass(log.reconcile, begun, catalog, true)
    requires rt.steps == start + log.steps
    modifies rt, tx
    ensures Committed(begun, tx.table, s, opts.force, q) && next.reconcile == log.reconcile
    ensures Logs(next.attempts, base, rt.trace, Reconciled(begun), s, opts, wave + 1, {}, q.deployed)
    ensures rt.steps == start + next.steps
    ensures WavesOf(next.waves, begun, s) && Balanced(q, Reconciled(begun), s, opts, next)
    ensures ending.None? ==>
      GoingWell(next, q, failures + reported, begun, s, opts, wave + 1) && q.deployed == p.deployed + Elems(deployedJobs)
    ensures ending.Some? ==> ending.value != Complete && Ends(ending.value, next, begun, s, catalog)
  {
    ghost var x, steps, more;
    ending, reported, deployedJobs, x, steps, more, q := RunWave(rt, tx, s, wave, opts, begun, p, base, log.attempts);
    LogsWave(log.attempts, more, base, rt.trace, Reconciled(begun), s, opts, wave + 1, q.deployed);
    DoneAdds(log.attempts, more);
    BalanceMore(log, p, q, x, steps, more, Reconciled(begun), s, opts);
    WavesGrow(log.waves, x, begun, s);
    next := WithWave(log, x, steps, more);
    JoinsMore(start, log.steps, steps);
    if ending.Some? {
      WaveEnds(log, begun, s, wave, x, steps, more, ending.value, catalog);
    } else {
      WaveGoesWell(log, p, q, failures, begun, s, opts, wave, x, steps, more, reported, deployedJobs);
    }
  }
  /** The waves, up to the last or to the one that ends the run. */
  method RunWaves(
    rt: Runtime, tx: Tx, s: Setup, opts: DeployOptions, ghost begun: Table, ghost start: seq<Step>, ghost base: Trace,
    ghost log: RunLog, ghost catalog: set<string>)
    returns (
      ending: Option<Ending>, failures: seq<Failure>, deployedJobs: seq<string>, ghost next: RunLog, ghost p: Progress)
    requires forall j :: NoDup(s.rollouts(j).catalog)
    requires tx.table == Reconciled(begun) && rt.trace == base && rt.steps == start + log.steps
    requires log.waves == [] && log.attempts == [] && log.steps == [Step(Prerequisites, true)]
    requires IsPass(log.reconcile, begun, catalog, true)
    modifies rt, tx
    ensures Committed(begun, tx.table, s, opts.force, p) && next.reconcile == log.reconcile
    ensures rt.trace == base + AttemptsTrace(next.attempts) && rt.steps == start + next.steps
    ensures WavesOf(next.waves, begun, s) && Balanced(p, Reconciled(begun), s, opts, next)
    ensures ending.Some? ==> ending.value != Complete && Ends(ending.value, next, begun, s, catalog)
    ensures ending.None? ==>
      && GoingWell(next, p, failures, begun, s, opts, |next.waves|) && Elems(deployedJobs) == p.deployed
      && forall slot :: slot in begun ==> begun[slot].deploymentSeq < |next.waves|
  {
    NothingRan(base, begun, s, opts, log);
    StartsWell(begun, s, opts, log);
    var maxSeq := GetMaxDeploymentSeq(tx);
    assert forall slot :: slot in begun ==> begun[slot].deploymentSeq == tx.table[slot].deploymentSeq;
    failures, deployedJobs, next, p := [], [], log, START;
    var deploymentSeq := 0;
    while deploymentSeq <= maxSeq
      invariant deploymentSeq >= 0 && next.reconcile == log.reconcile && rt.steps == start + next.steps
      invariant Committed(begun, tx.table, s, opts.force, p)
      invariant Logs(next.attempts, base, rt.trace, Reconciled(begun), s, opts, deploymentSeq, {}, p.deployed)
      invariant GoingWell(next, p, failures, begun, s, opts, deploymentSeq)
      invariant Elems(deployedJobs) == p.deployed
    {
      var reported, wave;
      ending, reported, wave, next, p :=
        RunNextWave(rt, tx, s, deploymentSeq, opts, failures, begun, p, start, base, next, catalog);
      if ending.Some? {
        return;
      }
      ElemsSum(deployedJobs, wave);
      failures := failures + reported;
      deployedJobs := deployedJobs + wave;
      deploymentSeq := deploymentSeq + 1;
    }
    ending := None;
  }

  /** The final sync, if something was deployed, and the commit. */
  method FinishRun(
    rt: Runtime, failures: seq<Failure>, anyDeployed: bool, ghost p: Progress, ghost begun: Table, ghost s: Setup,
    ghost opts: DeployOptions, ghost start: seq<Step>, ghost log: RunLog)
    returns (committed: bool, reported: seq<Failure>, ghost end: RunLog)
    requires GoingWell(log, p, failures, begun, s, opts, |log.waves|) && (anyDeployed <==> p.deployed != {})
    requires forall slot :: slot in begun ==> begun[slot].deploymentSeq < |log.waves|
    requires rt.steps == start + log.steps
    modifies rt`steps
    ensures rt.steps == start + end.steps && end == log.(steps := end.steps)
    ensures RanAll(end, begun, s, committed) && Balanced(p, Reconciled(begun), s, opts, end)
    ensures Reported(reported, end) && (NotSynced in reported <==> Step(FinalSync, false) in end.steps)
  {
    reported := failures;
    var synced: Option<bool> := None;
    if anyDeployed {
      var finalSync := rt.Take(FinalSync);
      synced := Some(finalSync);
      if !finalSync {
        reported := reported + [NotSynced];
      }
    }
    committed := rt.Take(Commit);
    JoinsLast(start, log.steps, synced, committed);
    RunsToEnd(log, begun, s, synced, committed);
    EndBalance(log, p, Reconciled(begun), s, opts, synced, committed);
    EndReports(log, failures, synced, committed);
    end := log.(steps := log.steps + LastSteps(synced, committed));
  }

  /**
    The run. The trace grows by the reconcile pass and the recorded attempts, wave after wave, however it ends; the
    ending says which of its steps failed. Only if it is complete does the table change, and then the staged jobs are
    the refreshed ones that needed a rollout (all of them under force), each was attempted, the jobs whose attempt
    succeeded are promoted and nothing else is, and every visited job was refreshed or is reported.
   */
  method Execute(rt: Runtime, tx: Tx, s: Setup, catalog: set<string>, opts: DeployOptions)
    returns (ending: Ending, failures: seq<Failure>, ghost p: Progress, ghost log: RunLog)
    requires forall j :: NoDup(s.rollouts(j).catalog)
    modifies rt, tx
    ensures rt.trace == old(rt.trace) + PassTrace(log.reconcile) + AttemptsTrace(log.attempts)
    ensures rt.steps == old(rt.steps) + log.steps
    ensures WavesOf(log.waves, old(tx.table), s) && Balanced(p, Reconciled(old(tx.table)), s, opts, log)
    ensures Ends(ending, log, old(tx.table), s, catalog)
    ensures ending != Complete ==> tx.table == old(tx.table) && failures == []
    ensures ending == Complete ==>
      && Committed(old(tx.table), tx.table, s, opts.force, p)
      && Reported(failures, log) && (NotSynced in failures <==> Step(FinalSync, false) in log.steps)
      && Accounted(p, failures, log.attempts, Visited(old(tx.table), s))
      && p.refreshed + JobsNotRefreshed(failures) == Visited(old(tx.table), s)
  {
    var begun := tx.table;
    ghost var start := rt.steps;
    p := START;
    var ready := rt.Take(Prerequisites);
    log := RunLog(Pass([], [], []), [Step(Prerequisites, ready)], [], []);
    NothingRan(rt.trace, begun, s, opts, log);
    if !ready {
      return NotReady, [], p, log;
    }
    var reconciled; ghost var pass;
    reconciled, pass := ReconcileRemovedAndDisabledAllocations(rt, tx, catalog);
    log := log.(reconcile := pass);
    ghost var base := rt.trace;
    NothingRan(base, begun, s, opts, log);
    if !reconciled {
      tx.Rollback(begun);
      return NotReconciled, [], p, log;
    }
    var cut, deployedJobs;
    cut, failures, deployedJobs, log, p := RunWaves(rt, tx, s, opts, begun, start, base, log, catalog);
    if cut.Some? {
      tx.Rollback(begun);
      return cut.value, [], p, log;
    }
    var committed;
    SomeDeployed(deployedJobs);
    committed, failures, log := FinishRun(rt, failures, |deployedJobs| > 0, p, begun, s, opts, start, log);
    if !committed {
      tx.Rollback(begun);
      return NotCommitted, [], p, log;
    }
    AllAccounted(log, p, failures, begun, tx.table, s, opts);
    return Complete, failures, p, log;
  }

  lemma SomeDeployed(jobs: seq<string>)
    ensures |jobs| > 0 <==> Elems(jobs) != {}
  {
    assert |jobs| > 0 ==> jobs[0] in Elems(jobs);
  }
}
