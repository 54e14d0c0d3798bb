# Verified model of maand's rollout, semaphores, key-value store and logs

Maand deploys jobs to workers. This project models four parts of it in Dafny and proves what holds of every run.

**Deploys.** `AllocationTable` is the table of allocations with their plan hashes, and what each SQL statement does to
a row; every table those statements can reach is *sound* (NULL, empty text and default version are used consistently).
`FileManifests`, `RolloutPolicy`, `RolloutPlanner` and `ExecutorChoice` hold the procedures that decide what a row
needs: the rollout check, the dry-run planner, the status column and the two executors. `Ordering` and `Batches` say
in which order and how many at a time; `RolloutTrace` says what a batched rollout may leave in a trace of commands,
hooks and health checks, and proves what every such trace satisfies; `RolloutExecutor` is the programs that produce
such traces. `JobDeploy` deploys one job. `Reconcile` stops what was removed or disabled. `DeployProgress`, `RunSteps`
and `Attempts` hold what a deploy has refreshed and staged, the steps it takes and reports, and the jobs it has
deployed; `DeployWaves` runs one wave and `Deploy` all of them, with partial success, endings and commit, `DryRun`
plans one and rolls back, `DeployTheorems` speaks about one run, its trace, and any number of runs, and `Preview`
about a dry run and the deploy after it. `Build` is the build's pass over the allocations, and `Lifecycle` follows
allocations through any history of builds, deploys, rolled back runs and collections.

**Allocation semaphores.** `Semaphore` is the protocol as atomic events (acquire, timeout, release) over any
interleaving, with safety, first-come-first-served and bounded overtaking. `SemaphoreCoordinator` is the object that
the server updates under its mutex; each method takes exactly the protocol's step.

**Versioned key-value store.** `KvStore` gives the in-memory store and its append-only log; `KvObjects` the objects that
update them in place; `KvTheorems` couples the two over every run and shows that the whole is a plain map with a saved
copy. `PrometheusCatalog` reconciles one namespace to a desired state.

**Structured log lines.** `LogLine` is the quoting printer and the escape-aware parser, `LogRoundTrip` says exactly when
they undo each other, and `LogGroups` groups entries into command blocks without losing one.

`Options`, `Seqs`, `Sets` and `Text` hold the shared vocabulary.

## What the proofs turned up

* **Rollout order on partial rollouts.** The deploy guide (docs/reference/cli/deploy.md:200-202 and 250) says batches
  are ordered by `rollout_order`. The code compares the stored list with the *candidates of this phase*, so a list of
  all active workers is ignored, and catalog order used, whenever only some of them are updated
  (`Ordering.PartialRolloutIgnoresStoredOrder`, `PartialRolloutExample`).
* **Dry run after a deploy.** A deploy promotes disabled rows too, and does not clear them when it stops them. The
  planner reads a promoted hash as a deployed worker, so the dry run asks for another deploy of a settled job exactly if
  it has a disabled allocation (`DeployTheorems.PlannerSettlesUnlessDisabled`, `DisabledIsAskedForAgain`), while a
  deploy itself skips the job.
* **Forced restarts.** Under `--force` the planner does not tell the policy that only the version changed; the executor
  does. For `restart_policy` "reload" they can announce and send different commands; `ExecutorChoice.CommandMatchesPlan`
  gives the exact rows, `ForcedVersionOnlyExample` the statements that lead to one, and
  `Preview.ReportMatchesDeploy` what it means for a report and the deploy after it.
* **Renamed files.** The aggregate hash of a tree is taken over the files' digests in path order and not over their
  paths. A build that renames a file without moving it in that order is a change the deploy does not see
  (`AllocationTable.ContentChangeSeenIff`, `RenameIsNotSeen`, `DeployTheorems.SameHashesAreNotDeployed`).
* **Re-enabled allocations that are not started.** The guide (docs/guides/disable-and-drain.md:142-144) promises a rollout
  for an allocation enabled again. The build marks only rows that were disabled and *not removed*. An allocation that
  was stopped, then lost its match, and is matched and enabled before a deploy drops its hash counts as deployed: no
  deploy starts it. The same happens to one that a removal stopped in a run that was rolled back.
  `Lifecycle.HistoryLapsesIff` says that nothing else does this, `ReenabledIsMissed` is a history, and
  `Build.ReenabledIsStarted` the condition row by row.
* **Backslashes in log lines.** The printer escapes quotes but not backslashes, and the parser drops them. A line comes
  back exactly if no value in quotes has a backslash and its last value is in quotes or does not end in white space
  (`LogRoundTrip.LineComesBackIff`, `FieldSurvivesIff`, `RoundTripDomainIsExact`).
* **Purging.** Purging stale rows is invisible to every later read, and visible in the outcome of deleting a key again;
  `KvTheorems.PurgeShowsInDeleteOutcome` and `DeleteOutcomeAfterRunsIff` say exactly when.
* **Long retention.** The purge compares the date column, which is text, with a cutoff that has no type, so the database
  compares text. A retention of so many days that the cutoff has fewer than ten digits makes young keys older than it
  (`KvTheorems.YoungKeysAreKeptIff`, `LongRetentionExample`).
* **Late timeouts.** An acquire can be told that it timed out although its ticket was granted meanwhile, and its
  allocation keeps the slot (`Semaphore.TimedOutHoldsIff`).

## Model

| member | source | states |
|---|---|---|
| AllocationTable.NormalizedIsNormal | data/version.go:15-22 | normalising yields a trimmed, non-empty version that is not "unknown" in any case, and changes nothing exactly when the version already is one |
| AllocationTable.NormalizedText | data/version.go:15-22 | a version keeps its text without the white space around it; no text, or "unknown" in any case, gives 0.0.0 |
| AllocationTable.UnknownIff | data/version.go:15-22 | a version is "unknown" exactly letter by letter, in either case, the Kelvin sign being a k |
| AllocationTable.TwoDeploys | data/hash_allocation.go:21-77 | a row through stage, promote, stage, promote: hash and files move together from staged to promoted, the running version becomes the target one, staging keeps what is promoted, and the flags stay |
| AllocationTable.FirstStaging | data/hash_allocation.go:21-90 | a first staging promotes nothing and runs the default version; a pending start clears only what was promoted |
| AllocationTable.ReachableIsSound | data/hash_allocation.go:15-102 | on every table that any sequence of the data layer's statements reaches, plan rows have a staged content hash, promoted hash and files come together, and versions are NULL or normalised |
| AllocationTable.VersionChecksAgree | data/allocation_version.go:36-113 | on reachable rows SQL's `ifnull` comparison and the normalising Go comparison give the same answer |
| AllocationTable.VersionChecksNeedSoundRows | data/allocation_version.go:69-113 | they differ on a row whose version skipped the normalisation |
| AllocationTable.ContentChangeSeenIff | utils/hash.go:61-142 | a promoted row staged again shows changed content exactly if the digests of its files in path order changed, for an injective hash of digests of one length |
| AllocationTable.RenameIsNotSeen | utils/hash.go:133-142 | a file renamed gives a different manifest under the same hash |
| AllocationTable.Tx.UpsertAllocation | build/build_allocations.go:82-89 | the build's insert-or-replace: flags cleared, target version normalised, plan row kept |
| AllocationTable.Tx.SetAllocationNewVersion | data/allocation_version.go:13-21 | writes the normalised target version and nothing else |
| AllocationTable.Tx.UpdateAllocationPlan | data/hash_allocation.go:21-58 | inserts a plan with default version and nothing promoted, or replaces staged hash and files only |
| AllocationTable.Tx.PromoteAllocationState | data/hash_allocation.go:60-77 | staged hash and files become the promoted ones and the target version, or the default, the running one |
| AllocationTable.Tx.MarkAllocationStartPending | data/hash_allocation.go:79-90 | clears what was promoted, keeps the running version |
| AllocationTable.Tx.ClearAllocationLiveState | data/hash_allocation.go:92-102 | clears what was promoted and the running version |
| AllocationTable.Tx.RemoveAllocationHash | data/hash_allocation.go:15-19 | drops the plan row |
| AllocationTable.Tx.Select | data/job.go:211-298 | a query returns exactly the workers whose row meets the condition, once each, in an order nothing may rely on |
| FileManifests.DiffFileManifests | data/file_manifest.go:54-75 | lists exactly the paths added, removed or re-hashed, sorted and once each; empty exactly when the manifests are equal |
| FileManifests.ChangesAreUnique | data/file_manifest.go:54-75 | the order the maps are walked in does not show in the list |
| FileManifests.MatchAny | utils/pathmatch/glob.go:158-178 | exactly the paths some glob matches, once each, in the order of the list |
| RolloutPolicy.ResolveUpdateAction | deploy/rollout_policy.go:22-56 | the action of the policy, and matched paths exactly when globs turn a reload into a restart: the one sorted list of all changed paths a glob selects |
| RolloutPolicy.PolicyTexts | deploy/rollout_policy.go:22-56 | sync-only or "never" syncs, any text but "never" and "reload" restarts, and "reload" reloads a version-only update and one without a promoted manifest |
| RolloutPolicy.RestartIffTriggered | deploy/rollout_policy.go:37-52 | under the reload policy, with files to compare, the action is restart exactly when some changed path matches some glob |
| RolloutPolicy.MoreGlobsNeverDowngrade | deploy/rollout_policy.go:37-52 | whatever the policy and flags, more globs can only turn a reload into a restart |
| RolloutPlanner.JobNeedsRollout | deploy/rollout.go:146-194 | true exactly when some non-removed row lacks a plan, is new, changed content or awaits a version |
| RolloutPlanner.PlanActive | deploy/dry_run.go:215-282 | the planned action, hashes, matched paths and need of an active row |
| RolloutPlanner.PlanJobRollout | deploy/dry_run.go:157-213 | one plan per catalogued non-removed row in catalog order, each its own row's action, hashes and matched paths; a rollout exactly when some row asks; the skip reason |
| RolloutPlanner.PlanShowsHashes | deploy/dry_run.go:215-330 | whatever is planned, the report shows the row's own promoted and staged hashes, each in its place |
| RolloutPlanner.DisabledPlanIff | deploy/dry_run.go:284-330 | a disabled allocation is to be stopped exactly if something is promoted for it, promoted exactly if its content or version changed or a deployed one is forced, and never started |
| RolloutPlanner.NonRemovedOrderedSpec | data/worker.go:376-405 | the ordered listing has exactly the non-removed rows whose worker is in the catalog |
| RolloutPlanner.NonRemovedKeepOrder | data/worker.go:376-405 | and they keep the order of the catalog |
| RolloutPlanner.RowsAgree | deploy/dry_run.go:215-330 | row by row the rollout check needs exactly the rows the planner plans work for, and disabled rows without a plan |
| RolloutPlanner.CheckMatchesPlan | deploy/rollout.go:150-194 | on a reachable table the check holds exactly when something is planned or a needing row is off the catalog or disabled without a plan |
| RolloutPlanner.PlannerMatchesCheck | deploy/dry_run.go:157-213 | the planner's verdict is the check's, or a disabled allocation still deployed |
| RolloutPlanner.StatusMatchesPlan | cat/cat_deployments.go:153-189 | each status of the deployments table corresponds to the matching planned actions, and the legacy health status never appears on a reachable row |
| RolloutPlanner.StatusMatchesCheck | cat/cat_deployments.go:153-182 | the status is new, restart or disabled_restart exactly when the row keeps its job from being skipped |
| ExecutorChoice.AllocationsNeedingRestart | deploy/allocations.go:148-171 | exactly the active rows that are not new and changed content or version, or all of them under force, once each |
| ExecutorChoice.SplitUpdated | deploy/allocations.go:60-101 | restarts and reloads are the workers the policy gives that action, in order; synced workers are in neither |
| ExecutorChoice.GroupByAction | deploy/allocations_lifecycle.go:33-51 | the second implementation files exactly the same workers under each action |
| ExecutorChoice.PicksKeepOrder | deploy/allocations.go:60-101 | both keep the workers in the order they were listed |
| ExecutorChoice.CommandMatchesPlan | deploy/dry_run.go:215-282 | the executor sends a row the command the planner announced, except exactly for a forced version-only restart, where it reloads instead |
| ExecutorChoice.ForcedVersionOnlyExample | deploy/dry_run.go:251-260 | the statements of a first deploy and of a second build that renames a file lead from an empty table to such a row |
| Ordering.ParseOrderList | deploy/ordering.go:45-56 | the pieces between commas, trimmed, blank ones dropped |
| Ordering.WrittenReads | deploy/ordering.go:45-56 | a list written with any white space around its names, and with empty pieces, is read as its names in order |
| Ordering.TrimmedWhole | deploy/ordering.go:31-56 | trimming the whole value first makes no difference to the names read |
| Ordering.ValidateRolloutOrderList | deploy/ordering.go:58-78 | valid exactly when the list has no duplicate and lists exactly the active set |
| Ordering.DefaultCatalogOrder | deploy/ordering.go:80-108 | candidates in catalog order, then those off the catalog, once each |
| Ordering.CatalogOrderKeepsOrder | deploy/ordering.go:80-108 | the candidates of the catalog in its order, then the others in the order they came |
| Ordering.ResolveRolloutOrder | deploy/ordering.go:124-166 | takes the order, its text and its source as the resolution function says |
| Ordering.ResolvedIsPermutation | deploy/ordering.go:124-166 | for any stored text the resolved order is a permutation of the candidates |
| Ordering.SourceIsKvIff | deploy/ordering.go:124-166 | the stored order is used exactly when its parsed list is itself a permutation of the candidates, and then as it stands; otherwise catalog order |
| Ordering.StoredOrderIsTaken | deploy/ordering.go:124-166 | a stored order of exactly the candidates is taken, however it is written |
| RolloutExecutor.OrderWithoutKey | deploy/ordering.go:80-166 | without a stored order a rollout takes the active candidates as the catalog lists their workers, then the others |
| RolloutExecutor.OrderFromKey | deploy/ordering.go:124-166 | with a stored order of exactly the active candidates it follows that |
| Ordering.PartialRolloutIgnoresStoredOrder | deploy/ordering.go:58-78 | a stored order of all active workers is used exactly when all of them are candidates |
| Ordering.PartialRolloutExample | deploy/ordering.go:124-166 | with the order c, b, a stored, updating a and b takes them in catalog order and reports that order |
| Ordering.ReportedOrderIsStable | deploy/ordering.go:149-165 | storing the order a rollout reported makes the next rollout of the same workers take it |
| Batches.EffectiveBatchSize | deploy/rollout.go:16-24 | at most the total, and positive unless the total is zero |
| Batches.CutSpec | deploy/batch_hooks.go:34-42 | batches concatenate to the list, are non-empty, at most the size, full except the last, and as many as the batch count |
| Batches.CountIsCeiling | deploy/batch_hooks.go:34-42 | the batch count is the true ceiling |
| Batches.CutAt | deploy/rollout.go:57-69 | the k-th batch starts at k times the size, and its start divided by the size is its index k |
| Batches.BatchIterator.constructor | utils/batch.go:26-30 | the iterator has exactly the batches of the list to give, size 1 if none is asked for |
| Batches.BatchIterator.Next | utils/batch.go:31-42 | yields the next of those batches, or says that none is left |
| RolloutTrace.AttemptsItsBatches | deploy/rollout.go:57-78 | a rollout calls each worker of the batches it reached exactly once, and every call ends |
| RolloutTrace.RestartAttempts | deploy/rollout.go:117-143 | success means every worker once and every batch healthy; stopping in batch k means exactly batches 0 to k attempted and k health checks passed |
| RolloutTrace.StartAttempts | deploy/rollout.go:57-81 | a start rollout calls the workers of the batches it reached, all of them if it gets to its one health check |
| RolloutTrace.RestartIsGated | deploy/rollout.go:108-143 | at every moment: no more than one batch of workers touched since the last passed health check, no more calls in flight, and no worker touched before all earlier batches passed |
| RolloutTrace.BatchesArePaced | deploy/parallel.go:22-45 | at no moment of a batched rollout are more calls in flight than its batches are wide |
| RolloutTrace.BatchWidths | deploy/batch_hooks.go:34-42 | of the batches told to hooks every one before the last has exactly the width, and their number is the least that holds all workers |
| RolloutTrace.RestartTellsHooks | deploy/rollout.go:108-143 | a restart rollout that succeeds told its hooks every batch, in order, with its workers, index and count, and all passed |
| RolloutTrace.StartTellsHooks | deploy/rollout.go:57-81 | so did a start rollout, which ended with its one health check |
| RolloutExecutor.RunInSlots | deploy/parallel.go:22-45 | over every scheduling, each worker is called once even when others fail, never more calls in flight than slots, and success exactly when all succeed; each time a call begins or ends, the choice was among exactly the calls that had their slot in list order and those in flight |
| RolloutExecutor.Runtime.RunParallelWorkers | deploy/parallel.go:9-46 | the same with the limit clamped between one and the number of workers |
| RolloutExecutor.PoolStaysFull | deploy/parallel.go:22-45 | at every moment of such a run as many calls as there are slots, or all that are left, are in flight or free to begin |
| RolloutExecutor.RunWorkerBatches | deploy/parallel.go:48-63 | one parallel run per batch of the cut, in order, with a slot for each of its workers, each begun only after every call of the one before has passed; success exactly when all batches pass |
| RolloutExecutor.BatchRunsMake | deploy/parallel.go:48-63 | so each worker of the batches reached is called once, every call ends, and success reaches all workers |
| RolloutExecutor.ActiveWorkers | deploy/allocations.go:134-146 | the active ones of a list, in its order |
| RolloutExecutor.RolloutRestartBatches | deploy/rollout.go:84-144 | its trace is a restart run over the resolved order in batches of max_concurrent_upgrades, or of one if that is less, the workers of a batch all at once, hooks told the true batch, index and count |
| RolloutExecutor.RolloutStartBatches | deploy/rollout.go:26-82 | its trace is a start run over the resolved order, the workers of a batch all at once, or nothing without active candidates |
| JobDeploy.RestartMakes | deploy/rollout.go:84-144 | a restart rollout calls no worker but its candidates, each at most once, and all of them if it succeeds |
| JobDeploy.StartMakes | deploy/rollout.go:26-82 | the same for a start rollout |
| JobDeploy.PhaseMakes | deploy/allocations.go:18-132 | a start, reload or restart phase makes only the calls it is for, each at most once, all of them if it succeeds, and every call it begins ends |
| JobDeploy.PhaseIsGated | deploy/rollout.go:108-143 | every moment of every reload or restart phase of a deploy keeps the batch limits and the health gate |
| JobDeploy.PhaseTellsHooks | deploy/rollout.go:16-144 | a phase that succeeds told its hooks exactly the batches of its width: max_concurrent_upgrades, at least one, for reloads and restarts; max_concurrent_starts for starts, or a single batch without that limit |
| JobDeploy.NeverTouchesRunning | deploy/rollout_policy.go:22-35 | sync-only or under "never" a deploy, whatever its end, calls no worker but to start what has nothing promoted |
| JobDeploy.AlwaysRestarts | deploy/rollout_policy.go:35-56 | under "always", or any text but "never" and "reload", a successful deploy restarts exactly the running allocations with new content or version, under force all running ones, once each, and reloads none |
| JobDeploy.StartsWithoutPromoted | deploy/allocations.go:18-40 | whatever the policy, it starts exactly the active allocations with nothing promoted, once each |
| JobDeploy.ReloadRestartsIff | deploy/rollout_policy.go:37-52 | under "reload" each such running allocation is reloaded or restarted once: restarted exactly if one of its changed files matches a glob, never for a version alone or without a promoted manifest |
| JobDeploy.DeployIsInTurn | deploy/job_deploy.go:37-43 | in every deploy all starts are over before a reload begins, and all reloads before a restart does |
| JobDeploy.HandleNewAllocations | deploy/allocations.go:18-40 | one start rollout in resolved order over exactly the new allocations, or nothing if there are none |
| JobDeploy.HandleUpdatedAllocations | deploy/allocations.go:42-132 | a gated reload rollout over exactly the workers to reload, and only if it succeeds a gated restart rollout over exactly those to restart |
| JobDeploy.PromoteAllocationHash | deploy/hashes.go:62-87 | promotes every non-removed row of the job, disabled ones included, and no other row |
| JobDeploy.FinalizeJobDeploy | deploy/job_deploy.go:91-97 | runs the post-deploy hooks and promotes exactly when they succeed |
| JobDeploy.ValidateSyncOnlyRollout | deploy/rollout_policy.go:58-70 | refuses exactly when an allocation waits for its first start |
| JobDeploy.DeployJobWithCommands | deploy/job_deploy.go:47-89 | nothing if the job needs nothing and is not forced; otherwise every command, a health check and the hooks up to the first failure, promoting exactly when all succeed |
| JobDeploy.DeployJob | deploy/job_deploy.go:18-45 | leaves in the trace what a deploy of its kind leaves: hooks only if sync-only (nothing if refused), the command sequence, or starts before reloads before restarts before hooks, up to the first failure; promotes exactly on a success that had something to do |
| JobDeploy.CommandsRunInTurn | deploy/job_deploy.go:47-89 | a deploy by job_control commands runs each command, told exactly the new allocations and exactly those a plain deploy would restart or reload, then one health check and the hooks, in turn, up to the first that fails |
| JobDeploy.SyncOnlyRunsHooks | deploy/job_deploy.go:21-29 | a sync-only deploy runs the hooks only, and nothing while an active allocation waits for its first start |
| JobDeploy.DeployMakes | deploy/job_deploy.go:18-45 | whatever its kind and end, every call such a deploy begins ends; a plain one calls no worker its rows do not want called, none twice, and all of them if it succeeds; the others call none |
| JobDeploy.DeployIsPaced | deploy/job_deploy.go:18-45 | nor at any moment of a job's deploy more than the widest batch of its phases |
| JobDeploy.DryRunPredicts | deploy/dry_run.go:157-282 | on a reachable refreshed table the calls announced by a job's report are those the executor wants exactly when no active row is off the catalog with a command or a forced version-only restart |
| JobDeploy.SyncOnlyAnnouncesStarts | deploy/dry_run.go:117-155 | a sync-only report announces no call exactly when no listed allocation is new |
| Reconcile.ReconcileStoppedAllocation | deploy/allocations.go:195-250 | one stop if it was deployed, then the hooks, then the cleanup of a removed one, each only if the step before passed or is excused for a lost worker; it succeeds exactly if all pass, and only then a removed row loses its plan |
| Reconcile.ReconcileRemovedAndDisabledAllocations | deploy/allocations.go:252-310 | the trace grows by one pass; it succeeds exactly if every stop passes and every job to check is healthy, and then the removed rows have lost their plans |
| Reconcile.PassDoesAll | deploy/allocations.go:195-310 | a pass that succeeds has stopped each removed or disabled allocation with something promoted, its hooks passed, a removed one is cleaned up, where only a worker off the catalog may have failed; its job was healthy if still active somewhere, and a lost worker was wiped |
| Reconcile.PassDoesNoMore | deploy/allocations.go:195-310 | no pass stops, checks or wipes anything else, stops anything twice, or goes on after a failed stop of a catalogued worker |
| Reconcile.NoneIsDroppedRunning | deploy/allocations.go:213-250 | no removed, deployed allocation loses its plan unless its stop succeeded or its worker is off the catalog; a failed stop otherwise, failed hooks or an unhealthy job make the pass fail |
| DeployProgress.ReconcileKeepsNeeds | deploy/allocations.go:243-247 | reconciling changes no job's need of a rollout |
| DeployProgress.UpdateJobAllocationHashes | deploy/hashes.go:26-60 | refreshes every non-removed row of the job with its staged tree and touches no other row |
| DeployProgress.SelectJobsForDeploy | deploy/filters.go:20-39 | the available jobs the filter names, in order, or all of them without a filter |
| DeployProgress.GetMaxDeploymentSeq | data/bucket_meta.go:67-74 | the greatest sequence over all rows, removed ones too, and zero for an empty table |
| DeployProgress.OutcomeNeeds | deploy/execute.go:160-211 | at any point of a run a job needs a rollout after a refresh exactly if it did before the run and is not deployed yet |
| RunSteps.PlanWave | deploy/execute.go:160-185 | runs the hooks of every job of the wave in order; stages, in order, exactly the jobs whose hooks passed and that need a rollout and are not deployed yet, all of them under force; refreshes exactly those whose hooks passed and reports the others |
| Attempts.DeployStagedJob | deploy/execute.go:191-211 | one sound attempt: it deploys the job on its refreshed rows, promotes it on success only, and its part of the trace is that of such a deploy |
| Attempts.DeployWave | deploy/execute.go:191-211 | attempts every job to stage once in order, whatever fails in it; it stops early only at a job that cannot be staged, having attempted exactly the jobs before it |
| DeployWaves.RunWave | deploy/execute.go:146-212 | one wave keeps the record, the failures and the refreshed, staged and deployed jobs true of the table, the steps and the trace, and ends the run only where it could not be prepared or a job not be staged |
| Deploy.Execute | deploy/execute.go:137-227 | the trace grows by the reconcile pass and the recorded attempts, the steps by those taken, and the ending says at which step the run stopped and what it had done by then; unless it is complete the table is as before; if it is, the staged jobs are the refreshed ones that needed it (all under force), each attempted, exactly the deployed ones are promoted, every visited job is refreshed or reported, and exactly what failed on the way is reported |
| DeployTheorems.CompleteIff | deploy/execute.go:133-227 | a run is complete exactly if no stop or health check of its reconcile pass failed and neither the prerequisites, a preparation, a staging nor the commit did; a failed deploy never ends a run |
| DeployTheorems.CompleteAttemptsAll | deploy/execute.go:146-212 | a run that gets to its commit has run the hooks of every visited job and attempted all that it staged, whichever deploys fail |
| DeployTheorems.StopsBefore | deploy/execute.go:191-200 | a run that stops at a job it cannot stage has attempted exactly the staged jobs before it, and neither that one nor a later one |
| DeployTheorems.WavesHoldTheirJobs | deploy/execute.go:146-154 | a wave takes up exactly the jobs of the catalog that pass the filter and have a non-removed row in it |
| DeployTheorems.StepsOfCompleteRun | deploy/execute.go:133-225 | a complete run checks the prerequisites, goes through the steps of each wave, makes a final sync exactly if a job was deployed, and commits |
| DeployTheorems.WaveScriptIs | deploy/execute.go:156-204 | the steps of a wave: prepare the workers, then the hooks of all its jobs in order, then stage each staged job and persist its keys |
| DeployTheorems.DropsOnlyStopped | deploy/allocations.go:213-250 | a complete run drops no plan of a deployed allocation whose stop failed on a catalogued worker |
| DeployTheorems.RowsAfterRun | deploy/execute.go:142-227 | every row of a committed run, disabled ones included, field by field: removed ones lose their plan, those of deployed jobs are promoted with the tree they were staged with and their target version, those of refreshed jobs have it staged and keep what was promoted, all others are as before |
| DeployTheorems.NeedsIff | deploy/rollout.go:150-194 | a job needs a rollout exactly if some non-removed row's promoted hash is not that of its tree, or an enabled one has none, or the running version is not the target |
| DeployTheorems.RunSettles | deploy/execute.go:146-227 | after any committed run, with force, sync-only or failures, a job needs a rollout exactly if it did before and was not deployed |
| DeployTheorems.StagesWhatNeeds | deploy/execute.go:160-185 | a run without force stages exactly the refreshed jobs that needed a rollout |
| DeployTheorems.NextRunResumes | deploy/execute.go:16-19 | after any committed run the next one stages exactly the visited jobs that needed a rollout and were not deployed: those staged and failed, and those whose hooks kept them from being refreshed |
| DeployTheorems.DeployAgain | deploy/execute.go:16-19 | two runs after each other: unless a hook before a plan fails, the second attempts exactly the jobs the first reports as failed and did not deploy in a later wave, and none after a run without failures, whatever fails in the second |
| DeployTheorems.AttemptCalls | deploy/execute.go:191-211 | an attempt calls no worker the job's refreshed rows do not want called, none twice, all of them if it succeeds, and every call ends |
| DeployTheorems.PromotedMeansCalled | deploy/execute.go:191-227 | for every job a run promotes the record has an attempt that made exactly the calls its refreshed rows want |
| DeployTheorems.WavesInOrder | deploy/execute.go:146-212 | where an attempt begins in the trace every earlier call has ended, all attempts of earlier waves are over and none of a later wave has begun |
| DeployTheorems.RunIsPaced | deploy/execute.go:137-212 | nor at any moment of a whole run, reconcile pass included, more than the widest batch of its attempts |
| DeployTheorems.LimitsMakeNarrow | deploy/rollout.go:50-55 | with both limits of a job set, its attempts are no wider than the larger of them |
| DeployTheorems.HistorySettles | deploy/execute.go:146-227 | over any sequence of runs with any filters and failures, a job still needs a rollout exactly if it did at first and no run deployed it |
| DeployTheorems.DeployedOnce | deploy/execute.go:167-182 | without force no run deploys again what an earlier run deployed |
| DeployTheorems.RunKeepsSound | deploy/execute.go:146-227 | a committed run takes reachable tables to sound ones |
| DeployTheorems.DecisionsAgree | deploy/rollout.go:146-194 | on every reachable table, refreshed and with catalogued workers, check, planned actions and status column say the same, and the planner adds exactly disabled allocations still deployed |
| DeployTheorems.PlannerSettlesUnlessDisabled | deploy/hashes.go:62-87 | after a job's deploy the check is settled, and the dry run asks again exactly if the job has a disabled allocation |
| DeployTheorems.DisabledIsAskedForAgain | deploy/hashes.go:62-87 | a reachable table with one disabled allocation, deployed without failure, for which the dry run asks again |
| DeployTheorems.SameHashesAreNotDeployed | deploy/hashes.go:26-60 | trees changed under the same hashes are not staged by the next run |
| DryRun.Run | deploy/dry_run.go:117-155 | changes nothing; wave by wave it prepares the workers, runs the hooks of each job and reports its full plan on its own refreshed rows, up to the first step that fails or job refused; it fails exactly if there is one, and if not asks for a deploy exactly if some visited job does |
| Preview.ReportMatchesDeploy | deploy/dry_run.go:157-282 | a job's report against its first deploy on the same table: on success the calls made are the calls announced exactly if no row surprises, and where none does no other call is made |
| Preview.PreviewThenDeploy | deploy/dry_run.go:117-155 | a dry run and a deploy after it keep to that for every report and every first attempt of its job |
| Build.BuildAllocations | build/build_allocations.go:38-146 | row by row: matched rows inserted or replaced, unmatched ones removed, listed ones disabled, and an active row that was disabled and not removed before marked for a start; no other row changes |
| Build.BuiltIff | build/build_allocations.go:49-197 | what a build leaves of a row, field by field: which are removed, disabled, placed anew with their target version, and cleared of what was promoted |
| Build.PlaceAll | build/build_allocations.go:49-114 | after the worker loop and the statement for lost workers every matched slot has a replaced row and every other existing row is removed |
| Build.DisableListed | build/build_allocations.go:116-143 | exactly the rows of listed workers, of jobs listed without workers, and of listed pairs are disabled |
| Build.MarkReenabledAllocations | build/build_allocations.go:171-197 | exactly the active rows that were disabled and not removed before lose their promoted hash |
| Build.BuildDeploymentSequence | build/build_deployment_sequence.go:33-38 | sets the wave of every row of the jobs that have one and of no other |
| Build.ReenabledIsStarted | build/build_allocations.go:148-197 | an active row is planned to start by the next dry run exactly if it had no promoted hash, or was disabled and not removed when the build began |
| Lifecycle.StepLapsesIff | build/build_allocations.go:148-169 | from a state without it, a build, deploy, rolled back run or collection makes an active, promoted row of a stopped allocation exactly when a build takes back a row that is removed, promoted and stopped |
| Lifecycle.HistoryLapsesIff | build/build_allocations.go:148-197 | over any history no active row counts as deployed while its allocation is stopped and not started since, exactly if no build takes such a row back |
| Lifecycle.ReenabledIsMissed | build/build_allocations.go:148-149 | a history from the empty table: deployed, disabled and stopped, unmatched, matched and enabled again; the row then needs no rollout and shows as promoted |
| Semaphore.GrantTakesLeastPrefix | jobcommand/runtime_semaphore.go:141-148 | the grant loop takes the least number of waiters that fills the slots or empties the queue |
| Semaphore.GrantCountUnique | jobcommand/runtime_semaphore.go:141-148 | no other number meets that description |
| Semaphore.GrantIsSafe | jobcommand/runtime_semaphore.go:141-148 | granting never oversubscribes and stops only with full slots or an empty queue |
| Semaphore.TicketsPartition | jobcommand/runtime_semaphore.go:96-121 | every enqueued ticket is granted, queued or withdrawn, exactly one of the three |
| Semaphore.CancelKeepsFair | jobcommand/runtime_semaphore.go:104-121 | a timeout removes only its own ticket, and none that was granted before it |
| Semaphore.StepKeepsInv | jobcommand/runtime_semaphore.go:44-148 | safety, order and channel state survive every event |
| Semaphore.ReachableIsSafe | jobcommand/runtime_semaphore.go:44-148 | after every run capacity is between 1 and 64, holders never exceed it, and a queue means all slots are held |
| Semaphore.ReachableIsFifo | jobcommand/runtime_semaphore.go:73-148 | the enqueue history without withdrawn tickets is the granted tickets followed by the queue, in order, each ticket once |
| Semaphore.ReachableClosedIffGranted | jobcommand/runtime_semaphore.go:141-148 | a waiter's channel is closed exactly when its ticket was granted |
| Semaphore.OtherScopesUntouched | jobcommand/runtime_semaphore.go:73-148 | an event on one scope changes no other |
| Semaphore.ImmediateAcquireOvertakesNobody | jobcommand/runtime_semaphore.go:88-94 | a slot given at once to a non-holder means that nobody was waiting |
| Semaphore.OvertakingStep | jobcommand/runtime_semaphore.go:96-148 | no event puts more tickets ahead of a waiter, and a successful release of its scope grants it or leaves fewer ahead |
| Semaphore.BoundedOvertaking | jobcommand/runtime_semaphore.go:96-148 | a ticket with p ahead of it is granted within p+1 successful releases unless it times out, even when one allocation queues several times |
| Semaphore.TimedOutHoldsIff | jobcommand/runtime_semaphore.go:63-69 | a caller told it timed out holds a slot exactly if one of its tickets was granted while it waited, and so whenever its own channel was closed |
| Semaphore.AcquireReplies | jobcommand/runtime_semaphore.go:44-102 | exactly when an acquire gets which reply, and what it leaves: told it holds, its allocation is a holder; queued, a new ticket stands at the end of the queue and the holders are the same |
| Semaphore.TimeoutLeaves | jobcommand/runtime_semaphore.go:104-121 | a timeout takes its ticket out of the queue and nothing else |
| Semaphore.HoldersAreTold | jobcommand/runtime_semaphore.go:44-148 | over every run the holders of a scope are exactly the allocations told so, by a reply or a closed channel, and not released since; so never more are told than there are slots |
| SemaphoreCoordinator.CompactInPlace | jobcommand/runtime_semaphore.go:113-120 | the in-place compaction leaves exactly the other waiters, in order |
| SemaphoreCoordinator.Coordinator.Acquire | jobcommand/runtime_semaphore.go:44-58 | takes the protocol's acquire step and gives its reply, an excessive capacity refused |
| SemaphoreCoordinator.Coordinator.RegisterWait | jobcommand/runtime_semaphore.go:73-102 | takes the protocol's registration step |
| SemaphoreCoordinator.Coordinator.CancelWait | jobcommand/runtime_semaphore.go:104-121 | takes the protocol's timeout step |
| SemaphoreCoordinator.Coordinator.Release | jobcommand/runtime_semaphore.go:123-139 | takes the protocol's release step, or refuses a scope or allocation that holds nothing |
| SemaphoreCoordinator.Coordinator.GrantNextWaiters | jobcommand/runtime_semaphore.go:141-148 | the loop grants exactly the protocol's number of waiters and closes each channel once |
| SemaphoreCoordinator.Coordinator.Status | jobcommand/runtime_semaphore.go:150-171 | reports the scope's capacity, holders, queue length and free slots |
| KvStore.LatestSpec | kv/persist.go:25-62 | the latest row of a key is the one no other row of the key is newer than |
| KvTheorems.PersistKeepsUnique | kv/persist.go:64-89 | persisting never writes a (namespace, key, version) twice |
| KvTheorems.EveryRunIsCoupled | kv/store.go:44-107 | over any run a changed entry is newer than every logged row of its key and an unchanged one equals its latest row |
| KvTheorems.LoadAfterPersistRestores | kv/persist.go:15-89 | loading what was just persisted gives the same store back |
| KvTheorems.OneCallOneVersion | kv/store.go:39-163 | after one call and a persist every key's latest row: version 1 for a new key, the next version for one that shows something else, a tombstone of the next version for a deleted or purged one, and no new row where nothing changed |
| KvTheorems.RunRefines | kv/store.go:44-163 | over any run, purges included, the store is a plain map and its log that map as last persisted |
| KvTheorems.PurgeHidesNothing | kv/purge.go:13-42 | a store loaded after a purge shows what it would have shown before |
| KvTheorems.PurgeIsInvisible | kv/purge.go:13-42 | stores opened on a log and on its purged copy answer every later Get and GetKeys alike after the same calls |
| KvTheorems.PurgeShowsInDeleteOutcome | kv/store.go:88-107 | exactly when deleting a key has another outcome on the purged copy |
| KvTheorems.DeleteOutcomeAfterRunsIff | kv/store.go:88-107 | after any calls made at the same times on a log and on its purged copy, the copy knows exactly the keys not lost, and when deleting has the same outcome |
| KvTheorems.PurgeShowsInDeleteExample | kv/store.go:88-107 | deleting an old tombstone again succeeds before the purge and fails after it |
| KvTheorems.PurgeRetention | kv/purge.go:13-42 | a live key older than the cutoff keeps exactly the rows within seven versions of its latest, at most eight; a key not older, as text, loses none; an old tombstone goes with all its rows |
| KvTheorems.DatesCompareIff | kv/purge.go:25 | exactly which cutoffs order all ten-digit dates as text as they do as numbers: those not positive, the powers of ten, and those of ten digits |
| KvTheorems.YoungKeysAreKeptIff | kv/purge.go:13-42 | a purge keeps every row of every young key of every log of such dates exactly for those cutoffs |
| KvTheorems.LongRetentionExample | kv/purge.go:33-42 | asked to retain 9999 days it drops a young tombstone |
| KvObjects.Database.PurgeStaleVersions | kv/purge.go:28-42 | one delete, its condition read from the table as it was, the date compared with the cutoff as text, negative retention taken as zero |
| KvObjects.Store.Put | kv/store.go:39-42 | writes the trimmed value |
| KvObjects.Store.PutValue | kv/store.go:44-86 | a new key starts at its first version, a changed or revived one is bumped, an equal one is left alone |
| KvObjects.Store.Delete | kv/store.go:88-107 | a tombstone with a new version, or the error of an unknown namespace or key |
| KvObjects.Store.Get | kv/store.go:109-125 | the entry unless missing or deleted |
| KvObjects.Store.GetKeys | kv/store.go:127-144 | exactly the live keys of the namespace |
| KvObjects.Store.PurgeNamespace | kv/store.go:146-163 | every live entry of the namespace becomes a tombstone, nothing else changes |
| KvObjects.Store.HasPendingChanges | kv/store.go:165-178 | true exactly when some entry is changed |
| KvObjects.Store.PersistToTransaction | kv/persist.go:64-89 | appends one row per changed entry, in the traversal's order, and marks the entries clean |
| KvObjects.Store.PersistToSessionTransaction | kv/persist.go:101-112 | the same, and writes nothing when nothing changed |
| KvObjects.LoadFromTransaction | kv/persist.go:15-62 | the store holds exactly the latest row of every key |
| Sets.Unique | utils/sets.go:7-22 | every value once, where it first occurs |
| Sets.Difference | utils/sets.go:47-63 | the elements of the first list outside the second, in order |
| PrometheusCatalog.SyncPrometheusKV | promconfig/catalog.go:172-192 | never takes its error branch and leaves the store synced |
| PrometheusCatalog.SyncedShowsDesired | promconfig/catalog.go:172-192 | the namespace then shows exactly the desired keys with trimmed values |
| PrometheusCatalog.SyncedLeavesOthers | promconfig/catalog.go:172-192 | no other namespace changes |
| PrometheusCatalog.SyncTwiceChangesNothing | promconfig/catalog.go:172-192 | syncing again changes nothing and bumps no version |
| LogLine.FormatKVLine | bucket/log_format.go:54-76 | known keys with a value in their order, then every other key with a value once, in any order |
| LogLine.KnownKeepOrder | bucket/log_format.go:54-66 | the known keys keep their order |
| LogLine.PlainIff | bucket/log_format.go:78-87 | a value is printed as it is exactly if it is not empty and has no space, tab, equal sign or quote |
| LogLine.StreamLines | logs/parse.go:20-45 | a line marked with a bar is standard output, one marked with an exclamation mark standard error, and all the rest of it is the message |
| LogLine.ReadKVValue | logs/parse.go:84-113 | the loop over the characters reads the value and the rest that the recursive reader reads |
| LogLine.ParseKVLine | logs/parse.go:68-82 | the loop collects the fields of the line, later ones winning |
| LogRoundTrip.RoundTrip | bucket/log_format.go:54-87 | parsing the printed line gives exactly the fields that have a value, whatever order the extra keys are printed in |
| LogRoundTrip.LineComesBackIff | bucket/log_format.go:54-87 | a printed line of any fields comes back exactly if none of its values in quotes has a backslash and its last value is quoted or does not end in white space |
| LogRoundTrip.NeverComesBack | logs/parse.go:68-113 | with a backslash in quotes anywhere on the line, reading all fields back would take more equal signs than the line has |
| LogRoundTrip.ReadEscaped | logs/parse.go:88-108 | reading a quoted value gives it back, and what follows it, if it has no backslash |
| LogRoundTrip.BackslashNeverSurvives | logs/parse.go:98-101 | a quoted value with a backslash is never read back as itself, whatever follows it on the line |
| LogRoundTrip.FieldSurvivesIff | bucket/log_format.go:78-87 | a field printed alone comes back, under each usable key, exactly if it has no backslash inside quotes and no white space at an unquoted end |
| LogRoundTrip.RoundTripDomainIsExact | bucket/log_format.go:54-87 | every line with values from a family round-trips exactly if all of the family are such values |
| LogRoundTrip.BackslashIsLost | logs/parse.go:98-101 | a backslash and a space come back as a space |
| LogGroups.GroupEntries | logs/human.go:221-261 | the blocks and events shown are a grouping of the log |
| LogGroups.GroupingIsRight | logs/human.go:221-261 | each block opens at a command_begin, holds every stream line up to the next event line, and has an end exactly if that line is a command_end; events are the rest, in order |
| LogGroups.NothingLostOrDoubled | logs/human.go:221-261 | every entry that is not blank is in exactly one place |
| LogGroups.SpansDoNotInterleave | logs/human.go:230-259 | everything of one block comes before everything of the next |
| LogGroups.SpanIsInOrder | logs/human.go:236-250 | a block's begin precedes its streams, which precede its end |
| LogGroups.GroupingIsUnique | logs/human.go:221-261 | the description leaves only one list of blocks and one list of events |

## Left out

- SSH, rsync, file staging, templates, hooks and health checks are calls that succeed or fail as they please; the trace keeps their order and outcome.
- SQLite: tables are maps or sequences and queries the comprehensions they state; alloc_id is taken to be unique per worker and job, so a plan row is part of its allocation. The KV table's created_date is kept as the number that its text spells, its deleted flag a truth value, and the cutoff is computed without bound on its size.
- Database errors other than a failed commit, and the goroutine interleaving of job commands with a deploy's transaction.
- Hashing: the hash function is a parameter; equal hashes are not taken to mean equal files.
- Prerequisites, preparations, pre-deploy hooks, staging, persisting and the commit are recorded with their outcome in a list of steps of its own, apart from the trace of what happens on workers.
- On how many workers at a time a job_control command may act.
- Reconciling also deletes the stored keys of jobs left without an active allocation; that is not modelled.
- Templates that depend on the running version or on stored keys: convergence is about runs with the same staged tree per allocation.
- Legacy rows (a promoted hash without files, the health-failed marker) are outside the reachable tables.
- Starting and stopping allocations by hand (`maand job`) and the order jobs are put in waves; a job's own job_control commands are taken to start its allocations.
- Key-value sessions whose transaction is rolled back after a persist.
- Glob matching, JSON log lines, encryption and the sort behind `sort.Strings` stand in as parameters or as a stock function.
- Log text is Unicode; bytes that are not valid UTF-8 are not modelled.
- The column order, tables and report text of the command line.
- Deploy.Execute: the update sequence is committed on its own and metrics are pushed afterwards; neither touches the modelled rows.
- ExecutorChoice.GroupByAction: the second implementation restarts before it reloads, the first the other way round; only the grouping is compared.
- SemaphoreCoordinator.CompactInPlace: the queue is compacted in an array of its own; the coordinator holds each scope as a value, so sharing of the backing slice is not modelled.
