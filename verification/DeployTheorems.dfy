/** What deploys leave for later: resuming, settling, and what the dry run still asks for afterwards. */
module DeployTheorems {
  import opened AllocationTable
  import opened Attempts
  import opened Deploy
  import opened DeployProgress
  import opened DeployWaves
  import opened JobDeploy
  import opened Options
  import opened Reconcile
  import opened RolloutExecutor
  import opened RolloutPlanner
  import opened RolloutTrace
  import opened RunSteps
  import opened Seqs

  /* ---- one run ---- */

  /** After a committed run a job needs a rollout exactly if it did before and its deploy did not succeed. */
  lemma RunSettles(before: Table, after: Table, s: Setup, force: bool, p: Progress, job: string)
    requires Committed(before, after, s, force, p)
    ensures NeedsAfterRefresh(after, s.trees, job) <==>
            NeedsAfterRefresh(before, s.trees, job) && job !in p.deployed
  {
    OutcomeNeeds(Reconciled(before), s.trees, p.refreshed, p.deployed, job);
    ReconcileKeepsNeeds(before, s.trees, job);
  }

  /**
    What keeps a job from being skipped, read off its rows and staged trees: a non-removed row whose promoted hash is
    not that of its tree, or of an enabled allocation that has none, or whose running version is not the target one.
   */
  lemma NeedsIff(t: Table, trees: Trees, job: string)
    ensures NeedsAfterRefresh(t, trees, job) <==>
      exists slot: Slot :: slot in t && slot.job == job && !t[slot].removed && Outdated(t[slot], trees(slot))
  {
    var now := RefreshJob(t, job, trees);
    forall slot: Slot | slot in t && slot.job == job && !t[slot].removed
      ensures slot == Slot(slot.worker, job) && (RowNeeds(now[slot]) <==> Outdated(t[slot], trees(slot)))
    {
    }
    if NeedsAfterRefresh(t, trees, job) {
      var w :| Slot(w, job) in now && RowNeeds(now[Slot(w, job)]);
      assert Slot(w, job) in t && Outdated(t[Slot(w, job)], trees(Slot(w, job)));
    }
  }

  predicate Outdated(a: Allocation, tree: Tree) {
    var promoted := if a.plan.Some? then a.plan.value.previousHash else None;
    var running := if a.plan.Some? then a.plan.value.currentVersion else None;
    || (if promoted.Some? then promoted.value != tree.hash else !a.disabled)
    || (if running.Some? then running.value else "0.0.0") != (if a.newVersion.Some? then a.newVersion.value else "0.0.0")
  }

  /**
    Every row of a committed run, disabled ones included: a removed one has lost its plan; one of a deployed job is
    promoted with the tree it was staged with and its target version; one of a refreshed job has that tree staged, and
    what was promoted before is still promoted; any other is as it was.
   */
  lemma RowsAfterRun(before: Table, after: Table, s: Setup, force: bool, p: Progress, slot: Slot)
    requires Committed(before, after, s, force, p)
    ensures slot in after <==> slot in before
    ensures slot in before ==>
      (var a, tree := before[slot], s.trees(slot);
       var promoted := if a.plan.Some? then a.plan.value.previousHash else None;
       var files := if a.plan.Some? then a.plan.value.previousFiles else None;
       var running := if a.plan.Some? then a.plan.value.currentVersion else Some("0.0.0");
       var target := Some(if a.newVersion.Some? then a.newVersion.value else "0.0.0");
       after[slot] ==
         if a.removed then a.(plan := None)
         else if slot.job in p.deployed then
           a.(plan := Some(Plan(Some(tree.hash), Some(tree.hash), Some(tree.files), Some(tree.files), target)))
         else if slot.job in p.refreshed then
           a.(plan := Some(Plan(Some(tree.hash), promoted, Some(tree.files), files, running)))
         else a)
  {
  }

  lemma VisitsTheSame(before: Table, after: Table, s: Setup, force: bool, p: Progress)
    requires Committed(before, after, s, force, p)
    ensures Visited(after, s) == Visited(before, s)
  {
    RunKeepsShape(before, after, s, force, p);
  }

  /** A run without force stages exactly the refreshed jobs that needed a rollout. */
  lemma StagesWhatNeeds(before: Table, after: Table, s: Setup, p: Progress)
    requires Committed(before, after, s, false, p)
    ensures forall j :: j in p.staged <==> j in p.refreshed && NeedsAfterRefresh(before, s.trees, j)
  {
    forall j ensures j in p.staged <==> j in p.refreshed && NeedsAfterRefresh(before, s.trees, j) {
      ReconcileKeepsNeeds(before, s.trees, j);
    }
  }

  /** The jobs a run was to visit, did not refresh, and would have staged. */
  ghost function Missed(before: Table, s: Setup, p: Progress): set<string> {
    set j | j in Visited(before, s) - p.refreshed && NeedsAfterRefresh(before, s.trees, j)
  }

  /**
    The next run stages exactly the visited jobs that needed a rollout and that this run, whatever failed in it, did
    not deploy. After a run without force these are the jobs it staged and failed to deploy and those it missed.
   */
  lemma NextRunResumes(t0: Table, t1: Table, t2: Table, s: Setup, force: bool, p: Progress, q: Progress)
    requires Committed(t0, t1, s, force, p)
    requires Committed(t1, t2, s, false, q) && q.refreshed == Visited(t1, s)
    ensures forall j :: j in q.staged <==>
      j in Visited(t0, s) && NeedsAfterRefresh(t0, s.trees, j) && j !in p.deployed
    ensures !force ==> q.staged == (p.staged - p.deployed) + Missed(t0, s, p)
  {
    StagesWhatNeeds(t1, t2, s, q);
    VisitsTheSame(t0, t1, s, force, p);
    forall j ensures j in q.staged <==>
      j in Visited(t0, s) && NeedsAfterRefresh(t0, s.trees, j) && j !in p.deployed
    {
      RunSettles(t0, t1, s, force, p, j);
    }
    if !force {
      StagesWhatNeeds(t0, t1, s, p);
    }
  }

  /**
    Two runs after each other. If no hook before a plan fails, the second attempts exactly the jobs that the first
    reports as not deployed and did not deploy in a later wave.
   */
  method DeployAgain(rt: Runtime, tx: Tx, s: Setup, catalog: set<string>, opts: DeployOptions)
    returns (
      one: Ending, two: Ending, failed: seq<Failure>, again: seq<Failure>, ghost first: RunLog, ghost second: RunLog)
    requires forall j :: NoDup(s.rollouts(j).catalog)
    requires !opts.force
    modifies rt, tx
    ensures Ends(one, first, old(tx.table), s, catalog) && (one != Complete ==> tx.table == old(tx.table))
    ensures var both := one == Complete && two == Complete;
      both && JobsNotRefreshed(failed) == {} && JobsNotRefreshed(again) == {} ==>
      AttemptedBy(second.attempts) == JobsNotDeployed(failed) - DeployedBy(first.attempts)
    ensures one == Complete && two == Complete && failed == [] ==> second.attempts == []
  {
    ghost var t0 := tx.table;
    ghost var p, q;
    one, failed, p, first := Execute(rt, tx, s, catalog, opts);
    if one != Complete {
      return one, one, failed, [], first, first;
    }
    ghost var t1 := tx.table;
    two, again, q, second := Execute(rt, tx, s, catalog, opts);
    if two == Complete {
      AttemptsResume(t0, t1, tx.table, s, p, q, failed, again, first.attempts, second.attempts);
    }
  }

  lemma AttemptsResume(
    t0: Table, t1: Table, t2: Table, s: Setup, p: Progress, q: Progress, failed: seq<Failure>, again: seq<Failure>,
    first: seq<Attempt>, second: seq<Attempt>)
    requires Committed(t0, t1, s, false, p) && Accounted(p, failed, first, Visited(t0, s))
    requires p.refreshed + JobsNotRefreshed(failed) == Visited(t0, s)
    requires Committed(t1, t2, s, false, q) && Accounted(q, again, second, Visited(t1, s))
    requires q.refreshed + JobsNotRefreshed(again) == Visited(t1, s)
    ensures JobsNotRefreshed(failed) == {} && JobsNotRefreshed(again) == {} ==>
      AttemptedBy(second) == JobsNotDeployed(failed) - DeployedBy(first)
    ensures failed == [] ==> second == []
  {
    if JobsNotRefreshed(failed) == {} && JobsNotRefreshed(again) == {} {
      NextRunResumes(t0, t1, t2, s, false, p, q);
      assert Missed(t0, s, p) == {};
      LeftToDeploy(first, second, p, failed);
    }
    if failed == [] {
      NothingToResume(t0, t1, t2, s, p, q, first);
      NoneAttempted(second);
    }
  }

  /** After a run without failures the next one stages nothing, whatever fails in it. */
  lemma NothingToResume(
    t0: Table, t1: Table, t2: Table, s: Setup, p: Progress, q: Progress, first: seq<Attempt>)
    requires Committed(t0, t1, s, false, p) && Committed(t1, t2, s, false, q)
    requires p.refreshed == Visited(t0, s) && Accounted(p, [], first, Visited(t0, s))
    ensures q.staged == {}
  {
    AttemptsSplit(first);
    VisitsTheSame(t0, t1, s, false, p);
    StagesWhatNeeds(t0, t1, s, p);
    StagesWhatNeeds(t1, t2, s, q);
    forall j ensures j !in q.staged {
      RunSettles(t0, t1, s, false, p, j);
    }
  }

  lemma LeftToDeploy(first: seq<Attempt>, second: seq<Attempt>, p: Progress, failed: seq<Failure>)
    requires p.staged == AttemptedBy(first) && p.deployed == DeployedBy(first)
    requires FailedIn(first) == JobsNotDeployed(failed) && AttemptedBy(second) == p.staged - p.deployed
    ensures AttemptedBy(second) == JobsNotDeployed(failed) - DeployedBy(first)
  {
    AttemptsSplit(first);
  }

  lemma AttemptsSplit(attempts: seq<Attempt>)
    ensures AttemptedBy(attempts) == DeployedBy(attempts) + FailedIn(attempts)
  {
  }

  lemma NoneAttempted(attempts: seq<Attempt>)
    ensures AttemptedBy(attempts) == {} ==> attempts == []
  {
    assert attempts != [] ==> attempts[0].job in AttemptedBy(attempts);
  }

  /* ---- when a run is complete, and where it stops ---- */

  /**
    A run is complete if and only if no stop and no health check of its reconcile pass failed, and none of its steps
    that end a run: the prerequisites, preparing a wave, staging a job, the commit. A failed deploy never ends it.
   */
  lemma CompleteIff(ending: Ending, log: RunLog, begun: Table, s: Setup, catalog: set<string>)
    requires Ends(ending, log, begun, s, catalog)
    ensures ending == Complete <==>
      && EveryStopPassed(log.reconcile.stops, begun, catalog) && AllHealthy(log.reconcile.checks)
      && NoneFatal(log.steps)
  {
    assert |log.steps| == 1 ==> log.steps[..0] == [] && NoneFatal([]);
    LastDecides(log.steps);
  }

  lemma LastDecides(steps: seq<Step>)
    ensures steps != [] && NoneFatal(steps[..|steps| - 1]) ==> (NoneFatal(steps) <==> !Fatal(steps[|steps| - 1]))
  {
    if steps != [] {
      assert steps == steps[..|steps| - 1] + [steps[|steps| - 1]];
      FatalAdds(steps[..|steps| - 1], [steps[|steps| - 1]]);
      OneStep(steps[|steps| - 1]);
    }
  }

  /** Whatever deploys fail: a complete run attempts all that it stages, each job once for each wave that staged it. */
  lemma CompleteAttemptsAll(ending: Ending, log: RunLog, begun: Table, s: Setup, catalog: set<string>)
    requires Ends(ending, log, begun, s, catalog) && (ending == Complete || ending == NotCommitted)
    ensures Done(log.attempts) == Agenda(log.waves)
    ensures forall slot ::
      slot in begun && !begun[slot].removed && begun[slot].deploymentSeq >= 0 && slot.job in s.jobs
      && Chosen(s.filter, slot.job) ==>
        slot.job in Hooked(log.steps, true) + Hooked(log.steps, false)
  {
  }

  /** A wave takes up exactly the jobs of the catalog that pass the filter and have a non-removed row in it. */
  lemma WavesHoldTheirJobs(log: RunLog, begun: Table, s: Setup, k: nat, job: string)
    requires WavesOf(log.waves, begun, s) && k < |log.waves|
    ensures log.waves[k].number == k && NoDup(log.waves[k].jobs)
    ensures job in log.waves[k].jobs <==>
      && job in s.jobs && (s.filter == [] || job in s.filter)
      && exists w :: Slot(w, job) in begun && !begun[Slot(w, job)].removed && begun[Slot(w, job)].deploymentSeq == k
  {
    var t0 := Reconciled(begun);
    if job in log.waves[k].jobs {
      var slot :| slot in t0 && !t0[slot].removed && t0[slot].deploymentSeq == k && slot.job in s.jobs && slot.job == job;
      assert slot == Slot(slot.worker, job);
    }
    if exists w :: Slot(w, job) in begun && !begun[Slot(w, job)].removed && begun[Slot(w, job)].deploymentSeq == k {
      var w :| Slot(w, job) in begun && !begun[Slot(w, job)].removed && begun[Slot(w, job)].deploymentSeq == k;
      assert Slot(w, job) in t0;
    }
  }

  lemma {:induction false} StagingAt(wave: int, jobs: seq<string>, i: nat)
    requires i < |jobs|
    ensures |Stagings(wave, jobs)| == 2 * |jobs|
    ensures Stagings(wave, jobs)[2 * i] == Stage(wave, jobs[i])
    ensures Stagings(wave, jobs)[2 * i + 1] == Persist(wave, jobs[i])
    decreases |jobs|
  {
    var n := |jobs| - 1;
    if n > 0 {
      StagingAt(wave, jobs[..n], if i < n then i else 0);
    }
  }

  /**
    The steps of a wave with jobs: its workers are prepared, then the hooks of all its jobs run in order, and then, for
    each job staged, its staging and, after its deploy, its stored keys.
   */
  lemma {:induction false} WaveScriptIs(x: Wave)
    requires x.jobs != []
    ensures var script, hooks := WaveScript(x), 1 + |x.jobs|;
      && |script| == hooks + 2 * |x.toStage| && script[0] == Prepare(x.number)
      && (forall i :: 0 <= i < |x.jobs| ==> script[1..hooks][i] == PreDeploy(x.number, x.jobs[i]))
      && (forall i :: 0 <= i < |x.toStage| ==>
            script[hooks..][2 * i] == Stage(x.number, x.toStage[i])
            && script[hooks..][2 * i + 1] == Persist(x.number, x.toStage[i]))
  {
    var staged := Stagings(x.number, x.toStage);
    assert WaveScript(x)[1 + |x.jobs|..] == staged;
    if x.toStage != [] {
      StagingAt(x.number, x.toStage, 0);
    }
    forall i | 0 <= i < |x.toStage|
      ensures staged[2 * i] == Stage(x.number, x.toStage[i]) && staged[2 * i + 1] == Persist(x.number, x.toStage[i])
    {
      StagingAt(x.number, x.toStage, i);
    }
  }

  lemma {:induction false} WaveInScript(waves: seq<Wave>, k: nat) returns (before: seq<What>, after: seq<What>)
    requires k < |waves|
    ensures Script(waves) == before + WaveScript(waves[k]) + after
    decreases |waves|
  {
    var n := |waves| - 1;
    if k == n {
      before, after := Script(waves[..n]), [];
    } else {
      before, after := WaveInScript(waves[..n], k);
      after := after + WaveScript(waves[n]);
    }
  }

  /**
    The steps of a complete run: the prerequisites first, those of each wave, and at the end a final sync, if a
    job was deployed, and the commit.
   */
  lemma {:induction false} StepsOfCompleteRun(log: RunLog, begun: Table, s: Setup, catalog: set<string>, k: nat)
    returns (before: seq<What>, after: seq<What>)
    requires Ends(Complete, log, begun, s, catalog) && k < |log.waves| && log.waves[k].jobs != []
    ensures Whats(log.steps) == before + WaveScript(log.waves[k]) + after
    ensures var n := |log.steps|;
      && n >= 2 && log.steps[0] == Step(Prerequisites, true) && log.steps[n - 1] == Step(Commit, true)
      && (log.steps[n - 2].what == FinalSync <==> DeployedBy(log.attempts) != {})
  {
    var last := if DeployedBy(log.attempts) == {} then [Commit] else [FinalSync, Commit];
    before, after := WaveInScript(log.waves, k);
    Regroups([Prerequisites], before, WaveScript(log.waves[k]), after, last);
    ScriptHasNoSync(log.waves);
    EndsOfSteps(log.steps, Script(log.waves), last);
    before, after := [Prerequisites] + before, after + last;
  }

  lemma Regroups(first: seq<What>, a: seq<What>, b: seq<What>, c: seq<What>, last: seq<What>)
    ensures first + (a + b + c) + last == (first + a) + b + (c + last)
  {
  }

  lemma EndsOfSteps(steps: seq<Step>, script: seq<What>, last: seq<What>)
    requires Whats(steps) == [Prerequisites] + script + last && script != [] && FinalSync !in script
    requires last == [Commit] || last == [FinalSync, Commit]
    requires NoneFatal(steps[..|steps| - 1])
    ensures |steps| >= 2 && steps[0] == Step(Prerequisites, true)
    ensures steps[|steps| - 2].what == FinalSync <==> last == [FinalSync, Commit]
  {
    var n := |steps|;
    assert n == |Whats(steps)|;
    assert Whats(steps)[0] == steps[0].what && Whats(steps)[n - 2] == steps[n - 2].what;
    assert steps[0] in steps[..n - 1];
    assert script[|script| - 1] in script;
  }

  /** A run that stops at a job attempted exactly what it had planned before that job, whatever failed among it. */
  lemma StopsBefore(log: RunLog, begun: Table, s: Setup, catalog: set<string>, wave: int, job: string)
    requires Ends(NotStaged(wave, job), log, begun, s, catalog)
    ensures var n := |log.attempts|;
      && n < |Agenda(log.waves)| && Agenda(log.waves)[n] == Planned(wave, job)
      && Done(log.attempts) == Agenda(log.waves)[..n]
    ensures log.steps[|log.steps| - 1] == Step(Stage(wave, job), false)
  {
  }

  /** A complete run drops no hash row of a deployed allocation whose worker is in the catalog and did not stop it. */
  lemma DropsOnlyStopped(log: RunLog, begun: Table, s: Setup, catalog: set<string>, slot: Slot)
    requires Ends(Complete, log, begun, s, catalog)
    requires slot in begun && begun[slot].removed && WasDeployed(begun[slot])
    ensures exists x ::
      x in log.reconcile.stops && x.slot == slot && x.hooks == Some(true) && (x.stopped || slot.worker !in catalog)
  {
    NoneIsDroppedRunning(log.reconcile, begun, catalog, true, slot);
  }

  /* ---- what the record of a run says of the trace ---- */

  /**
    The calls of one attempt: no worker that the job's refreshed rows do not want called, none twice, and all of them
    if the attempt succeeds. None at all for a sync-only deploy or one by job_control commands.
   */
  lemma AttemptCalls(a: Attempt, begun: Table, s: Setup, opts: DeployOptions, before: set<string>)
    requires NoDup(s.rollouts(a.job).catalog) && SoundAttempt(a, Reconciled(begun), s, opts, before)
    ensures Finished(a.part) == Begun(a.part)
    ensures opts.syncOnly || s.commands(a.job) > 0 ==> Begun(a.part) == multiset{}
    ensures !opts.syncOnly && s.commands(a.job) == 0 ==>
      (var wanted := WantedCalls(RowsFor(begun, s, a.job, a.job in before), a.job, opts, s.rollouts(a.job).policy);
       Begun(a.part) <= multiset(wanted) && (a.deployed ==> Begun(a.part) == multiset(wanted)))
  {
    var r := s.rollouts(a.job);
    DeployMakes(a.table, a.job, r, s.commands(a.job), opts, a.phases, a.part, a.deployed);
    SameRowsSameCalls(a.table, RowsFor(Reconciled(begun), s, a.job, a.job in before), a.job, opts, r.policy);
    ReconcileKeepsCalls(begun, s, a.job, a.job in before, opts, r.policy);
  }

  lemma {:induction false} FirstDeploy(attempts: seq<Attempt>, job: string) returns (i: nat)
    requires job in DeployedBy(attempts)
    ensures i < |attempts| && attempts[i].job == job && attempts[i].deployed && job !in DeployedBy(attempts[..i])
    decreases |attempts|
  {
    var n := |attempts| - 1;
    assert attempts == attempts[..n] + [attempts[n]];
    if job in DeployedBy(attempts[..n]) {
      i := FirstDeploy(attempts[..n], job);
      assert attempts[..n][..i] == attempts[..i];
    } else {
      i := n;
    }
  }

  /**
    A promoted job was really deployed: the record of a committed run has an attempt of it that called every worker
    its refreshed rows want called, each once, and no other.
   */
  lemma {:induction false} PromotedMeansCalled(
    begun: Table, s: Setup, opts: DeployOptions, p: Progress, failures: seq<Failure>, attempts: seq<Attempt>, job: string)
    returns (i: nat)
    requires Recorded(attempts, Reconciled(begun), s, opts) && Accounted(p, failures, attempts, Visited(begun, s))
    requires job in p.deployed && NoDup(s.rollouts(job).catalog) && !opts.syncOnly && s.commands(job) == 0
    ensures i < |attempts| && attempts[i].job == job && attempts[i].deployed
    ensures Begun(attempts[i].part) == Finished(attempts[i].part)
         == multiset(WantedCalls(RefreshJob(begun, job, s.trees), job, opts, s.rollouts(job).policy))
  {
    i := FirstDeploy(attempts, job);
    AttemptCalls(attempts[i], begun, s, opts, DeployedBy(attempts[..i]));
  }

  lemma {:induction false} TraceTake(attempts: seq<Attempt>, i: nat)
    requires i <= |attempts|
    ensures AttemptsTrace(attempts[..i]) <= AttemptsTrace(attempts)
    decreases |attempts|
  {
    var n := |attempts| - 1;
    if i == |attempts| {
      assert attempts[..i] == attempts;
    } else {
      TraceTake(attempts[..n], i);
      assert attempts[..n][..i] == attempts[..i];
    }
  }

  lemma {:induction false} CallsEnd(attempts: seq<Attempt>, begun: Table, s: Setup, opts: DeployOptions, i: nat)
    requires Recorded(attempts, Reconciled(begun), s, opts) && i <= |attempts|
    requires forall j :: NoDup(s.rollouts(j).catalog)
    ensures Finished(AttemptsTrace(attempts[..i])) == Begun(AttemptsTrace(attempts[..i]))
    decreases i
  {
    if i > 0 {
      CallsEnd(attempts, begun, s, opts, i - 1);
      AttemptCalls(attempts[i - 1], begun, s, opts, DeployedBy(attempts[..i - 1]));
      assert attempts[..i][..i - 1] == attempts[..i - 1];
      CountsAdd(AttemptsTrace(attempts[..i - 1]), attempts[i - 1].part);
    }
  }

  /**
    The waves do not overlap. Where an attempt begins in the trace, every call begun before it has ended; the attempts
    of earlier waves all come before that place, and none of a later one does.
   */
  lemma {:induction false} WavesInOrder(attempts: seq<Attempt>, begun: Table, s: Setup, opts: DeployOptions, i: nat)
    requires Recorded(attempts, Reconciled(begun), s, opts) && i < |attempts|
    requires forall j :: NoDup(s.rollouts(j).catalog)
    ensures AttemptsTrace(attempts[..i]) + attempts[i].part <= AttemptsTrace(attempts)
    ensures Finished(AttemptsTrace(attempts[..i])) == Begun(AttemptsTrace(attempts[..i]))
    ensures forall k :: 0 <= k < |attempts| ==>
      (attempts[k].wave < attempts[i].wave ==> k < i) && (attempts[k].wave > attempts[i].wave ==> k > i)
  {
    CallsEnd(attempts, begun, s, opts, i);
    TraceTake(attempts, i + 1);
    assert attempts[..i + 1][..i] == attempts[..i];
  }

  /** No phase of the attempt is wider than this. */
  ghost predicate Narrow(a: Attempt, s: Setup, limit: nat) {
    WithinLimit(a.table, a.job, s.rollouts(a.job), a.phases, limit)
  }

  lemma AttemptIsPaced(a: Attempt, begun: Table, s: Setup, opts: DeployOptions, before: set<string>, limit: nat)
    requires SoundAttempt(a, Reconciled(begun), s, opts, before)
    requires NoDup(s.rollouts(a.job).catalog) && Narrow(a, s, limit)
    ensures Paced(a.part, limit)
  {
    DeployIsPaced(a.table, a.job, s.rollouts(a.job), s.commands(a.job), opts, a.phases, a.part, a.deployed, limit);
  }

  lemma {:induction false} PartsArePacedTogether(attempts: seq<Attempt>, limit: nat)
    requires forall a :: a in attempts ==> Paced(a.part, limit) && Finished(a.part) == Begun(a.part)
    ensures Paced(AttemptsTrace(attempts), limit) && Finished(AttemptsTrace(attempts)) == Begun(AttemptsTrace(attempts))
    decreases |attempts|
  {
    if attempts == [] {
      SilentIsPaced([], limit);
    } else {
      var front, a := attempts[..|attempts| - 1], attempts[|attempts| - 1];
      assert a in attempts;
      PartsArePacedTogether(front, limit);
      PacedAdds(AttemptsTrace(front), a.part, limit);
      CountsAdd(AttemptsTrace(front), a.part);
    }
  }

  lemma {:induction false} AttemptsArePaced(
    attempts: seq<Attempt>, begun: Table, s: Setup, opts: DeployOptions, limit: nat)
    requires Recorded(attempts, Reconciled(begun), s, opts)
    requires (forall j :: NoDup(s.rollouts(j).catalog)) && forall a :: a in attempts ==> Narrow(a, s, limit)
    ensures Paced(AttemptsTrace(attempts), limit)
  {
    forall a | a in attempts ensures Paced(a.part, limit) && Finished(a.part) == Begun(a.part) {
      var k :| 0 <= k < |attempts| && attempts[k] == a;
      AttemptIsPaced(attempts[k], begun, s, opts, DeployedBy(attempts[..k]), limit);
      AttemptCalls(attempts[k], begun, s, opts, DeployedBy(attempts[..k]));
    }
    PartsArePacedTogether(attempts, limit);
  }

  /** At no moment of a whole run are more calls in flight than its widest batch, or the one stop of a reconcile pass. */
  lemma {:induction false} RunIsPaced(log: RunLog, begun: Table, s: Setup, opts: DeployOptions, limit: nat)
    requires Recorded(log.attempts, Reconciled(begun), s, opts)
    requires forall j :: NoDup(s.rollouts(j).catalog)
    requires limit >= 1 && forall a :: a in log.attempts ==> Narrow(a, s, limit)
    ensures Paced(PassTrace(log.reconcile) + AttemptsTrace(log.attempts), limit)
  {
    PassMakes(log.reconcile);
    AttemptsArePaced(log.attempts, begun, s, opts, limit);
    PacedAdds(PassTrace(log.reconcile), AttemptsTrace(log.attempts), limit);
  }

  /** With both limits of every job set, that is at most the largest of them. */
  lemma LimitsMakeNarrow(a: Attempt, s: Setup, limit: nat)
    requires limit >= 1 && 1 <= s.rollouts(a.job).maxConcurrentStarts <= limit
    requires s.rollouts(a.job).maxConcurrentUpgrades <= limit
    ensures Narrow(a, s, limit)
  {
  }

  /* ---- any number of runs ---- */

  /** One committed run: its own filter, force flag and failures, the table it left, and what it did. */
  datatype RunRecord = RunRecord(setup: Setup, force: bool, progress: Progress, after: Table)

  function TableAfter(t: Table, runs: seq<RunRecord>): Table {
    if runs == [] then t else runs[|runs| - 1].after
  }

  /** The runs follow each other from a table, all with the same staged trees. */
  ghost predicate History(t: Table, runs: seq<RunRecord>, trees: Trees)
    decreases |runs|
  {
    runs == [] ||
    (var front, last := runs[..|runs| - 1], runs[|runs| - 1];
     && History(t, front, trees) && last.setup.trees == trees
     && Committed(TableAfter(t, front), last.after, last.setup, last.force, last.progress))
  }

  ghost predicate EverDeployed(runs: seq<RunRecord>, job: string) {
    exists i :: 0 <= i < |runs| && job in runs[i].progress.deployed
  }

  /** Over any history, a job still needs a rollout exactly if it did at first and no run has deployed it. */
  lemma {:induction false} HistorySettles(t: Table, runs: seq<RunRecord>, trees: Trees, job: string)
    requires History(t, runs, trees)
    ensures NeedsAfterRefresh(TableAfter(t, runs), trees, job) <==>
            NeedsAfterRefresh(t, trees, job) && !EverDeployed(runs, job)
    decreases |runs|
  {
    if runs != [] {
      var front, last := runs[..|runs| - 1], runs[|runs| - 1];
      HistorySettles(t, front, trees, job);
      RunSettles(TableAfter(t, front), last.after, last.setup, last.force, last.progress, job);
      EverDeployedSnoc(front, last, job);
      assert runs == front + [last];
    }
  }

  lemma EverDeployedSnoc(front: seq<RunRecord>, last: RunRecord, job: string)
    ensures EverDeployed(front + [last], job) <==> EverDeployed(front, job) || job in last.progress.deployed
  {
    var runs := front + [last];
    assert runs[|front|] == last;
    if EverDeployed(front, job) {
      var i :| 0 <= i < |front| && job in front[i].progress.deployed;
      assert runs[i] == front[i];
    }
    if EverDeployed(runs, job) {
      var i :| 0 <= i < |runs| && job in runs[i].progress.deployed;
      assert i < |front| ==> runs[i] == front[i];
    }
  }

  /** A run without force never deploys again what an earlier run of the history deployed. */
  lemma {:induction false} DeployedOnce(t: Table, runs: seq<RunRecord>, trees: Trees, job: string)
    requires History(t, runs, trees) && runs != [] && !runs[|runs| - 1].force
    requires job in runs[|runs| - 1].progress.deployed
    ensures !EverDeployed(runs[..|runs| - 1], job) && NeedsAfterRefresh(t, trees, job)
  {
    var front, last := runs[..|runs| - 1], runs[|runs| - 1];
    HistorySettles(t, front, trees, job);
    ReconcileKeepsNeeds(TableAfter(t, front), trees, job);
  }

  /* ---- reachable tables stay reachable ---- */

  predicate ContentTrees(t: Table, trees: Trees) {
    forall slot :: slot in t ==> ContentHash(trees(slot).hash)
  }

  lemma RunKeepsSound(before: Table, after: Table, s: Setup, force: bool, p: Progress)
    requires Committed(before, after, s, force, p) && SoundTable(before) && ContentTrees(before, s.trees)
    ensures SoundTable(after)
  {
    DefaultIsNormal();
    forall slot | slot in after ensures AllocationTable.Sound(after[slot]) {
      assert AllocationTable.Sound(before[slot]) && ContentHash(s.trees(slot).hash);
    }
  }

  lemma RefreshKeepsSound(t: Table, job: string, trees: Trees)
    requires SoundTable(t) && ContentTrees(t, trees)
    ensures SoundTable(RefreshJob(t, job, trees)) && Refreshed(RefreshJob(t, job, trees), job)
  {
  }

  /* ---- check, plan and status after a refresh ---- */

  ghost predicate AllCatalogued(t: Table, catalog: seq<string>, job: string) {
    forall w :: Slot(w, job) in t && !t[Slot(w, job)].removed ==> w in catalog
  }

  /**
    On every reachable table, once its plans are refreshed and its workers are in the catalog: the rollout check,
    the planned actions and the status column all say the same, and the planner's verdict differs from them
    exactly by disabled allocations that are still deployed.
   */
  lemma DecisionsAgree(t: Table, catalog: seq<string>, job: string, trees: Trees, opts: DeployOptions, policy: JobPolicy)
    requires SoundTable(t) && ContentTrees(t, trees) && AllCatalogued(t, catalog, job) && !opts.force
    ensures var now := RefreshJob(t, job, trees);
      && (NeedsRollout(now, job) <==> SomethingPlanned(now, catalog, job, opts, policy))
      && (NeedsRollout(now, job) <==>
            exists w :: Slot(w, job) in now && StatusOf(now[Slot(w, job)]) in {New, RestartDue, DisabledRestart})
      && (PlannerNeeds(now, catalog, job, opts, policy) <==>
            NeedsRollout(now, job) || DisabledStillDeployed(now, catalog, job))
  {
    var now := RefreshJob(t, job, trees);
    RefreshKeepsSound(t, job, trees);
    assert !UnplannedNeed(now, catalog, job);
    CheckMatchesPlan(now, catalog, job, opts, policy);
    PlannerMatchesCheck(now, catalog, job, opts, policy);
    forall w | Slot(w, job) in now
      ensures RowNeeds(now[Slot(w, job)]) <==> StatusOf(now[Slot(w, job)]) in {New, RestartDue, DisabledRestart}
    {
      if now[Slot(w, job)].plan.Some? {
        StatusMatchesCheck(now[Slot(w, job)]);
      }
    }
    if NeedsRollout(now, job) {
      var w :| Slot(w, job) in now && RowNeeds(now[Slot(w, job)]);
      assert StatusOf(now[Slot(w, job)]) in {New, RestartDue, DisabledRestart};
    }
    if exists w :: Slot(w, job) in now && StatusOf(now[Slot(w, job)]) in {New, RestartDue, DisabledRestart} {
      var w :| Slot(w, job) in now && StatusOf(now[Slot(w, job)]) in {New, RestartDue, DisabledRestart};
      assert RowNeeds(now[Slot(w, job)]);
    }
  }

  ghost predicate HasDisabled(t: Table, catalog: seq<string>, job: string) {
    exists w :: w in catalog && Slot(w, job) in t && !t[Slot(w, job)].removed && t[Slot(w, job)].disabled
  }

  /** What a deploy left of one row, read by the next dry run: the staged hash is the promoted one. */
  lemma DeployedRow(before: Table, after: Table, s: Setup, force: bool, p: Progress, slot: Slot)
    requires Committed(before, after, s, force, p) && slot in before && !before[slot].removed
    requires slot.job in p.deployed
    ensures slot in RefreshJob(after, slot.job, s.trees)
    ensures var a := RefreshJob(after, slot.job, s.trees)[slot];
      && !a.removed && a.disabled == before[slot].disabled
      && GetAllocationHash(a) == Hashes(s.trees(slot).hash, s.trees(slot).hash, true)
  {
    RowsAfterRun(before, after, s, force, p, slot);
  }

  lemma DisabledRowsStayDeployed(
    before: Table, after: Table, catalog: seq<string>, s: Setup, force: bool, p: Progress, job: string)
    requires Committed(before, after, s, force, p) && ContentTrees(before, s.trees) && job in p.deployed
    ensures DisabledStillDeployed(RefreshJob(after, job, s.trees), catalog, job) <==> HasDisabled(before, catalog, job)
  {
    var now := RefreshJob(after, job, s.trees);
    RunKeepsShape(before, after, s, force, p);
    RefreshKeepsShape(after, job, s.trees);
    forall w | Slot(w, job) in before && !before[Slot(w, job)].removed
      ensures GetAllocationHash(now[Slot(w, job)]).previous != ""
    {
      DeployedRow(before, after, s, force, p, Slot(w, job));
    }
  }

  /**
    A deployed job is settled for the rollout check, but the dry run asks for it again exactly if it has a disabled
    allocation: promotion gives disabled rows a promoted hash, and the planner takes that for a deployed worker.
   */
  lemma PlannerSettlesUnlessDisabled(
    before: Table, after: Table, catalog: seq<string>, s: Setup, force: bool, p: Progress, job: string,
    opts: DeployOptions, policy: JobPolicy)
    requires Committed(before, after, s, force, p) && SoundTable(before) && ContentTrees(before, s.trees)
    requires AllCatalogued(before, catalog, job) && job in p.deployed && !opts.force
    ensures !NeedsAfterRefresh(after, s.trees, job)
    ensures PlannerNeeds(RefreshJob(after, job, s.trees), catalog, job, opts, policy) <==> HasDisabled(before, catalog, job)
  {
    RunSettles(before, after, s, force, p, job);
    RunKeepsSound(before, after, s, force, p);
    DisabledRowsStayDeployed(before, after, catalog, s, force, p, job);
    StillCatalogued(before, after, catalog, s, force, p, job);
    DecisionsAgree(after, catalog, job, s.trees, opts, policy);
  }

  /** For example: one disabled allocation, built and deployed for the first time. */
  lemma DisabledIsAskedForAgain(slot: Slot, tree: Tree, rollout: Rollout, opts: DeployOptions)
    returns (before: Table, after: Table, s: Setup, p: Progress)
    requires ContentHash(tree.hash) && slot.worker in rollout.catalog && !opts.force
    ensures exists ops :: Legal(ops) && before == Run(map[], ops)
    ensures Committed(before, after, s, false, p) && slot.job in p.deployed && p.staged == Visited(before, s) == {slot.job}
    ensures !NeedsAfterRefresh(after, s.trees, slot.job)
    ensures PlannerNeeds(RefreshJob(after, slot.job, s.trees), rollout.catalog, slot.job, opts, rollout.policy)
  {
    var job := {slot.job};
    before := DisabledTable(slot);
    s := Setup(job, [], _ => tree, _ => rollout, _ => 0);
    p := Progress(job, job, job);
    after := DeployProgress.Outcome(Reconciled(before), s.trees, job, job);
    ExampleRuns(slot, before, tree, s, p, after);
    PlannerSettlesUnlessDisabled(before, after, rollout.catalog, s, false, p, slot.job, opts, rollout.policy);
  }

  lemma DisabledTable(slot: Slot) returns (t: Table)
    ensures t == map[slot := Allocation(false, true, 0, Some(NormalizeDeployVersion("1.0")), None)]
    ensures SoundTable(t) && exists ops :: Legal(ops) && t == Run(map[], ops)
  {
    var ops := [] + [Upsert(slot, "1.0")] + [Flag(slot, false, true, 0)];
    RunSnoc(map[], [], Upsert(slot, "1.0"));
    RunSnoc(map[], [] + [Upsert(slot, "1.0")], Flag(slot, false, true, 0));
    t := Run(map[], ops);
    ReachableIsSound(ops);
  }

  lemma ExampleRuns(slot: Slot, before: Table, tree: Tree, s: Setup, p: Progress, after: Table)
    requires before == map[slot := Allocation(false, true, 0, Some(NormalizeDeployVersion("1.0")), None)]
    requires s.jobs == {slot.job} && s.filter == [] && s.trees(slot) == tree
    requires p == Progress({slot.job}, {slot.job}, {slot.job})
    requires after == DeployProgress.Outcome(Reconciled(before), s.trees, {slot.job}, {slot.job})
    ensures Committed(before, after, s, false, p) && Visited(before, s) == {slot.job}
  {
  }

  lemma StillCatalogued(
    before: Table, after: Table, catalog: seq<string>, s: Setup, force: bool, p: Progress, job: string)
    requires Committed(before, after, s, force, p) && ContentTrees(before, s.trees)
    requires AllCatalogued(before, catalog, job)
    ensures AllCatalogued(after, catalog, job) && ContentTrees(after, s.trees)
  {
  }

  /* ---- what a build changes ---- */

  ghost predicate SameHashes(a: Trees, b: Trees) {
    forall slot :: a(slot).hash == b(slot).hash
  }

  /** Only the hashes of the staged trees enter a decision to deploy. */
  lemma NeedsSeeHashes(t: Table, a: Trees, b: Trees, job: string)
    requires SameHashes(a, b)
    ensures NeedsAfterRefresh(t, a, job) <==> NeedsAfterRefresh(t, b, job)
  {
    var x, y := RefreshJob(t, job, a), RefreshJob(t, job, b);
    forall w ensures Slot(w, job) in x && RowNeeds(x[Slot(w, job)]) <==> Slot(w, job) in y && RowNeeds(y[Slot(w, job)]) {
    }
  }

  /** So trees changed under the same hash, a file renamed for one, are not deployed by the next run. */
  lemma SameHashesAreNotDeployed(
    t0: Table, t1: Table, t2: Table, s: Setup, rebuilt: Setup, force: bool, p: Progress, q: Progress, job: string)
    requires Committed(t0, t1, s, force, p) && job in p.deployed
    requires Committed(t1, t2, rebuilt, false, q) && SameHashes(s.trees, rebuilt.trees)
    ensures job !in q.staged
  {
    RunSettles(t0, t1, s, force, p, job);
    NeedsSeeHashes(t1, s.trees, rebuilt.trees, job);
    StagesWhatNeeds(t1, t2, rebuilt, q);
  }
}
