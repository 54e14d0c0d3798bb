/** What a dry run promises of the deploy after it. */
module Preview {
  import opened AllocationTable
  import opened Attempts
  import opened Deploy
  import opened DeployProgress
  import opened DeployTheorems
  import opened DeployWaves
  import opened DryRun
  import opened JobDeploy
  import opened Reconcile
  import opened RolloutExecutor
  import opened RolloutPlanner
  import opened RolloutTrace
  import opened RunSteps
  import opened Seqs

  lemma SameSets(a: set<Call>, b: set<Call>)
    ensures multiset(a) == multiset(b) <==> a == b
  {
    if multiset(a) == multiset(b) {
      forall c: Call ensures c in a <==> c in b {
        assert c in a <==> c in multiset(a);
        assert c in b <==> c in multiset(b);
      }
    }
  }

  /** The rows on which the report of a job and its deploy agree call by call. */
  ghost predicate Predictable(t: Table, s: Setup, opts: DeployOptions, job: string) {
    NoSurprises(RefreshJob(t, job, s.trees), s.rollouts(job).catalog, job, opts, s.rollouts(job).policy)
  }

  /**
    A job's report against the first deploy of the job, made on the same table: the deploy makes exactly the announced
    calls if it succeeds, if and only if no row surprises; and where none does, it never makes another call.
   */
  lemma ReportMatchesDeploy(
    r: Report, a: Attempt, begun: Table, s: Setup, opts: DeployOptions, before: set<string>)
    requires SoundTable(begun) && ContentTrees(begun, s.trees) && NoDup(s.rollouts(r.job).catalog)
    requires PlansJob(r, begun, s, opts) && a.job == r.job && !opts.syncOnly && s.commands(r.job) == 0
    requires SoundAttempt(a, Reconciled(begun), s, opts, before) && r.job !in before
    ensures a.deployed ==>
      (Begun(a.part) == multiset(AnnouncedCalls(r.plan)) <==> Predictable(begun, s, opts, r.job))
    ensures Predictable(begun, s, opts, r.job) ==> Begun(a.part) <= multiset(AnnouncedCalls(r.plan))
  {
    var rollout := s.rollouts(r.job);
    var rows := RefreshJob(begun, r.job, s.trees);
    RefreshKeepsSound(begun, r.job, s.trees);
    AttemptCalls(a, begun, s, opts, before);
    DryRunPredicts(r.plan, rows, rollout.catalog, r.job, opts, rollout.policy);
    SameSets(AnnouncedCalls(r.plan), WantedCalls(rows, r.job, opts, rollout.policy));
  }

  /** Every report of a dry run against every first deploy of its job in the run that follows. */
  ghost predicate Kept(reports: seq<Report>, attempts: seq<Attempt>, begun: Table, s: Setup, opts: DeployOptions) {
    forall r, i {:trigger r in reports, attempts[i]} ::
      r in reports && 0 <= i < |attempts| && attempts[i].job == r.job && s.commands(r.job) == 0
      && r.job !in DeployedBy(attempts[..i]) ==>
        && (attempts[i].deployed ==>
             (Begun(attempts[i].part) == multiset(AnnouncedCalls(r.plan)) <==> Predictable(begun, s, opts, r.job)))
        && (Predictable(begun, s, opts, r.job) ==> Begun(attempts[i].part) <= multiset(AnnouncedCalls(r.plan)))
  }

  /** A dry run and then a deploy: the trace grows by the recorded attempts, and each keeps to its job's report. */
  method PreviewThenDeploy(rt: Runtime, tx: Tx, s: Setup, catalog: set<string>, opts: DeployOptions)
    returns (reports: seq<Report>, ending: Ending, failures: seq<Failure>, ghost log: RunLog)
    requires SoundTable(tx.table) && ContentTrees(tx.table, s.trees) && !opts.syncOnly
    requires forall j :: NoDup(s.rollouts(j).catalog)
    modifies rt, tx
    ensures rt.trace == old(rt.trace) + PassTrace(log.reconcile) + AttemptsTrace(log.attempts)
    ensures Ends(ending, log, old(tx.table), s, catalog)
    ensures Recorded(log.attempts, Reconciled(old(tx.table)), s, opts)
    ensures Kept(reports, log.attempts, old(tx.table), s, opts)
  {
    ghost var begun := tx.table;
    var ok, required; ghost var p, steps, waves;
    ok, required, reports, steps, waves := DryRun.Run(rt, tx, s, opts);
    ending, failures, p, log := Execute(rt, tx, s, catalog, opts);
    forall r, i |
      r in reports && 0 <= i < |log.attempts| && log.attempts[i].job == r.job && s.commands(r.job) == 0
      && r.job !in DeployedBy(log.attempts[..i])
      ensures log.attempts[i].deployed ==>
        (Begun(log.attempts[i].part) == multiset(AnnouncedCalls(r.plan)) <==> Predictable(begun, s, opts, r.job))
      ensures Predictable(begun, s, opts, r.job) ==> Begun(log.attempts[i].part) <= multiset(AnnouncedCalls(r.plan))
    {
      ReportMatchesDeploy(r, log.attempts[i], begun, s, opts, DeployedBy(log.attempts[..i]));
    }
  }
}
