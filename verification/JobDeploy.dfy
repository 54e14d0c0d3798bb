/** Deploying one job: start what is new, reload or restart what changed, then promote. */
module JobDeploy {
  import opened AllocationTable
  import opened Batches
  import opened ExecutorChoice
  import opened FileManifests
  import opened Options
  import opened Ordering
  import opened RolloutExecutor
  import opened RolloutPlanner
  import opened RolloutPolicy
  import opened RolloutTrace
  import opened Seqs

  /* ---- which calls a deploy makes ---- */

  function CallSet(workers: seq<string>, action: Action): set<Call> {
    set w | w in workers :: Call(w, action)
  }

  /** The calls the executor is to make for a job, one per active row that has a command. */
  ghost function WantedCalls(t: Table, job: string, opts: DeployOptions, policy: JobPolicy): set<Call> {
    set slot | slot in t && slot.job == job && Active(t[slot]) && Command(t[slot], opts, policy).Some?
      :: Call(slot.worker, Command(t[slot], opts, policy).value)
  }

  lemma {:induction false} CallsAreSet(workers: seq<string>, action: Action)
    requires NoDup(workers)
    ensures Calls(workers, action) == multiset(CallSet(workers, action))
  {
    CallsSize(workers, action);
    forall c: Call ensures Calls(workers, action)[c] == multiset(CallSet(workers, action))[c] {
      NoDupCount(workers, c.worker);
      assert c == Call(c.worker, c.action);
      assert c in CallSet(workers, action) <==> c.action == action && c.worker in workers;
    }
  }

  lemma {:induction false} AllActive(t: Table, job: string, workers: seq<string>)
    requires forall w :: w in workers ==> Slot(w, job) in t && Active(t[Slot(w, job)])
    ensures ActiveOf(t, job, workers) == workers
  {
    if workers != [] {
      var front, last := workers[..|workers| - 1], workers[|workers| - 1];
      assert workers == front + [last];
      assert forall w :: w in front ==> w in workers;
      AllActive(t, job, front);
    }
  }

  lemma {:induction false} OrderCalls(t: Table, job: string, r: Rollout, candidates: seq<string>, action: Action)
    requires NoDup(r.catalog) && NoDup(candidates)
    requires forall w :: w in candidates ==> Slot(w, job) in t && Active(t[Slot(w, job)])
    ensures Calls(OrderOf(t, job, r, candidates), action) == multiset(CallSet(candidates, action))
    ensures |OrderOf(t, job, r, candidates)| == |candidates|
  {
    AllActive(t, job, candidates);
    NonRemovedOrderedSpec(t, r.catalog, job);
    ResolvedIsPermutation(NonRemovedOrdered(t, r.catalog, job), candidates, r.storedOrder);
    var order := OrderOf(t, job, r, candidates);
    PermuteSameElems(order, candidates);
    CallsPermute(order, candidates, action);
    CallsAreSet(candidates, action);
  }

  lemma {:induction false} PartOfOrder(order: seq<string>, size: nat, n: nat, action: Action)
    requires size > 0 && n <= |Cut(order, size)|
    ensures Calls(Flat(Cut(order, size)[..n]), action) <= Calls(order, action)
  {
    var batches := Cut(order, size);
    CutSpec(order, size);
    FlatSplit(batches, n);
    CallsAdd(Flat(batches[..n]), Flat(batches[n..]), action);
  }

  /** A restart rollout makes the calls it is meant to make, all of them if it succeeds. */
  lemma {:induction false} RestartMakes(
    t: Table, job: string, r: Rollout, candidates: seq<string>, action: Action, segments: seq<Segment>, ok: bool)
    requires NoDup(r.catalog) && NoDup(candidates)
    requires forall w :: w in candidates ==> Slot(w, job) in t && Active(t[Slot(w, job)])
    requires RestartRun(segments, Cut(OrderOf(t, job, r, candidates), RestartSize(r)), action, ok)
    ensures Begun(TraceOf(segments)) <= multiset(CallSet(candidates, action))
    ensures ok ==> Begun(TraceOf(segments)) == multiset(CallSet(candidates, action))
    ensures Finished(TraceOf(segments)) == Begun(TraceOf(segments))
  {
    var order := OrderOf(t, job, r, candidates);
    OrderCalls(t, job, r, candidates, action);
    RestartAttempts(segments, order, RestartSize(r), action, ok);
    PartOfOrder(order, RestartSize(r), |segments|, action);
  }

  lemma {:induction false} StartMakes(
    t: Table, job: string, r: Rollout, candidates: seq<string>, segments: seq<Segment>, final: Trace, ok: bool)
    requires NoDup(r.catalog) && NoDup(candidates)
    requires forall w :: w in candidates ==> Slot(w, job) in t && Active(t[Slot(w, job)])
    requires var order := OrderOf(t, job, r, candidates);
      StartRun(segments, Cut(order, StartSize(r, |order|)), Start, final, ok)
    ensures Begun(TraceOf(segments) + final) <= multiset(CallSet(candidates, Start))
    ensures ok ==> Begun(TraceOf(segments) + final) == multiset(CallSet(candidates, Start))
    ensures Finished(TraceOf(segments) + final) == Begun(TraceOf(segments) + final)
  {
    var order := OrderOf(t, job, r, candidates);
    OrderCalls(t, job, r, candidates, Start);
    var size := StartSize(r, |order|);
    StartAttempts(segments, order, size, Start, final, ok);
    PartOfOrder(order, size, |segments|, Start);
  }

  /* ---- one rollout of a deploy ---- */

  /** One action on the workers listed for it: what it left in the trace and how it ended. */
  datatype Phase = Phase(action: Action, listed: seq<string>, part: Trace, ok: bool)

  ghost function StartCalls(t: Table, job: string): set<Call> {
    set slot | slot in t && slot.job == job && IsNew(t[slot]) :: Call(slot.worker, Start)
  }

  ghost function UpdateCalls(t: Table, job: string, opts: DeployOptions, policy: JobPolicy, action: Action): set<Call> {
    set slot | slot in t && slot.job == job && NeedsRestart(t[slot], opts.force)
               && ExecutorAction(t[slot], opts, policy) == action
      :: Call(slot.worker, action)
  }

  /** The calls a phase is for. */
  ghost function PhaseCalls(t: Table, job: string, opts: DeployOptions, policy: JobPolicy, action: Action): set<Call> {
    if action == Start then StartCalls(t, job) else UpdateCalls(t, job, opts, policy, action)
  }

  ghost predicate StartRollout(t: Table, job: string, r: Rollout, x: Phase) {
    var order := OrderOf(t, job, r, x.listed);
    exists segments, final ::
      StartRun(segments, Cut(order, StartSize(r, |order|)), Start, final, x.ok) && x.part == TraceOf(segments) + final
  }

  ghost predicate RestartRollout(t: Table, job: string, r: Rollout, x: Phase) {
    exists segments ::
      RestartRun(segments, Cut(OrderOf(t, job, r, x.listed), RestartSize(r)), x.action, x.ok) && x.part == TraceOf(segments)
  }

  /** A whole batched rollout over exactly the workers the phase is for; nothing at all if there are none. */
  ghost predicate Rolled(t: Table, job: string, r: Rollout, opts: DeployOptions, x: Phase) {
    && NoDup(x.listed) && CallSet(x.listed, x.action) == PhaseCalls(t, job, opts, r.policy, x.action)
    && (if x.listed == [] then x.ok && x.part == []
        else if x.action == Start then StartRollout(t, job, r, x)
        else RestartRollout(t, job, r, x))
  }

  lemma ListedAreActive(t: Table, job: string, opts: DeployOptions, policy: JobPolicy, listed: seq<string>, action: Action)
    requires CallSet(listed, action) == PhaseCalls(t, job, opts, policy, action)
    ensures forall w :: w in listed ==> Slot(w, job) in t && Active(t[Slot(w, job)])
  {
    forall w | w in listed ensures Slot(w, job) in t && Active(t[Slot(w, job)]) {
      assert Call(w, action) in CallSet(listed, action);
    }
  }

  /** A phase makes the calls it is for and no others, each at most once, and all of them if it succeeds. */
  lemma PhaseMakes(t: Table, job: string, r: Rollout, opts: DeployOptions, x: Phase)
    requires NoDup(r.catalog) && Rolled(t, job, r, opts, x)
    ensures var calls := multiset(PhaseCalls(t, job, opts, r.policy, x.action));
      Begun(x.part) <= calls && (x.ok ==> Begun(x.part) == calls)
    ensures Finished(x.part) == Begun(x.part)
  {
    ListedAreActive(t, job, opts, r.policy, x.listed, x.action);
    if x.listed == [] {
      assert CallSet(x.listed, x.action) == {};
    } else if x.action == Start {
      var order := OrderOf(t, job, r, x.listed);
      var segments, final :|
        StartRun(segments, Cut(order, StartSize(r, |order|)), Start, final, x.ok) && x.part == TraceOf(segments) + final;
      StartMakes(t, job, r, x.listed, segments, final, x.ok);
    } else {
      var segments :|
        RestartRun(segments, Cut(OrderOf(t, job, r, x.listed), RestartSize(r)), x.action, x.ok)
        && x.part == TraceOf(segments);
      RestartMakes(t, job, r, x.listed, x.action, segments, x.ok);
    }
  }

  /** Every moment of every reload or restart phase of every deploy. */
  lemma {:induction false} PhaseIsGated(t: Table, job: string, r: Rollout, opts: DeployOptions, x: Phase, i: nat)
    requires Rolled(t, job, r, opts, x) && x.action != Start && i <= |x.part|
    ensures Gated(x.part[..i], Cut(OrderOf(t, job, r, x.listed), RestartSize(r)), x.action, RestartSize(r))
  {
    var order := OrderOf(t, job, r, x.listed);
    if x.listed == [] {
      NothingIsGated(Cut(order, RestartSize(r)), x.action, RestartSize(r), x.part[..i]);
    } else {
      var segments :| RestartRun(segments, Cut(order, RestartSize(r)), x.action, x.ok) && x.part == TraceOf(segments);
      RestartIsGated(segments, order, RestartSize(r), x.action, x.ok, i);
    }
  }

  /** How many calls a phase may have in flight: the size of its batches. */
  function PhaseLimit(t: Table, job: string, r: Rollout, x: Phase): nat {
    if x.action == Start then StartSize(r, |OrderOf(t, job, r, x.listed)|) else RestartSize(r)
  }

  lemma {:induction false} PhaseIsPaced(t: Table, job: string, r: Rollout, opts: DeployOptions, x: Phase, limit: nat)
    requires Rolled(t, job, r, opts, x) && PhaseLimit(t, job, r, x) <= limit
    ensures Paced(x.part, limit)
  {
    var order := OrderOf(t, job, r, x.listed);
    if x.listed == [] {
      SilentIsPaced(x.part, limit);
    } else if x.action == Start {
      var segments, final :|
        StartRun(segments, Cut(order, StartSize(r, |order|)), Start, final, x.ok) && x.part == TraceOf(segments) + final;
      StartIsPaced(segments, order, StartSize(r, |order|), final, x.ok, limit);
    } else {
      var segments :| RestartRun(segments, Cut(order, RestartSize(r)), x.action, x.ok) && x.part == TraceOf(segments);
      CutSpec(order, RestartSize(r));
      BatchesArePaced(segments, Cut(order, RestartSize(r)), x.action, limit);
    }
  }

  lemma {:induction false} StartIsPaced(
    segments: seq<Segment>, order: seq<string>, size: nat, final: Trace, ok: bool, limit: nat)
    requires 0 < size <= limit && StartRun(segments, Cut(order, size), Start, final, ok)
    ensures Paced(TraceOf(segments) + final, limit)
  {
    CutSpec(order, size);
    BatchesArePaced(segments, Cut(order, size), Start, limit);
    SilentIsPaced(final, limit);
    PacedAdds(TraceOf(segments), final, limit);
  }

  /** The width of a phase's batches: of reloads and restarts at least one, of starts all if there is no limit. */
  function Width(action: Action, r: Rollout, total: nat): nat {
    if action != Start then if r.maxConcurrentUpgrades < 1 then 1 else r.maxConcurrentUpgrades
    else if r.maxConcurrentStarts < 1 || r.maxConcurrentStarts > total then total
    else r.maxConcurrentStarts
  }

  /**
    A phase that succeeds took its workers in batches of that width, in resolved order, and told the hooks of each batch
    its workers, its index and how many batches there are; a start without a limit has one batch.
   */
  lemma {:induction false} PhaseTellsHooks(t: Table, job: string, r: Rollout, opts: DeployOptions, x: Phase)
    requires NoDup(r.catalog) && Rolled(t, job, r, opts, x) && x.ok && x.listed != []
    ensures var order, width := OrderOf(t, job, r, x.listed), Width(x.action, r, |x.listed|);
      && |order| == |x.listed| && width > 0
      && HookContexts(x.part) == BatchesAt(order, width) && HooksPassed(x.part)
      && Passes(x.part) == (if x.action == Start then 1 else |BatchesAt(order, width)|)
    ensures x.action == Start && r.maxConcurrentStarts < 1 ==> |HookContexts(x.part)| == 1
  {
    ListedAreActive(t, job, opts, r.policy, x.listed, x.action);
    OrderCalls(t, job, r, x.listed, x.action);
    if x.action == Start {
      StartPhaseHooks(t, job, r, x);
    } else {
      RestartPhaseHooks(t, job, r, x);
    }
  }

  lemma {:induction false} StartPhaseHooks(t: Table, job: string, r: Rollout, x: Phase)
    requires StartRollout(t, job, r, x) && x.ok && |OrderOf(t, job, r, x.listed)| == |x.listed| > 0
    ensures var order, width := OrderOf(t, job, r, x.listed), Width(Start, r, |x.listed|);
      && width > 0 && HookContexts(x.part) == BatchesAt(order, width) && HooksPassed(x.part) && Passes(x.part) == 1
    ensures r.maxConcurrentStarts < 1 ==> |HookContexts(x.part)| == 1
  {
    var order, width := OrderOf(t, job, r, x.listed), Width(Start, r, |x.listed|);
    var segments, final :|
      StartRun(segments, Cut(order, StartSize(r, |order|)), Start, final, x.ok) && x.part == TraceOf(segments) + final;
    assert StartSize(r, |order|) == width;
    StartTellsHooks(segments, order, width, final, x.part);
    OneBatchHolds(order);
  }

  lemma OneBatchHolds(order: seq<string>)
    ensures |order| > 0 ==> |BatchesAt(order, |order|)| == 1
  {
    if |order| > 0 {
      OneBatch(|order|);
    }
  }

  lemma {:induction false} RestartPhaseHooks(t: Table, job: string, r: Rollout, x: Phase)
    requires RestartRollout(t, job, r, x) && x.ok && x.action != Start
    ensures var order, width := OrderOf(t, job, r, x.listed), Width(x.action, r, |x.listed|);
      && width > 0 && HookContexts(x.part) == BatchesAt(order, width) && HooksPassed(x.part)
      && Passes(x.part) == |BatchesAt(order, width)|
  {
    var order, width := OrderOf(t, job, r, x.listed), Width(x.action, r, |x.listed|);
    var segments :| RestartRun(segments, Cut(order, RestartSize(r)), x.action, x.ok) && x.part == TraceOf(segments);
    RestartTellsHooks(segments, order, width, x.action);
    RestartAttempts(segments, order, width, x.action, true);
    CutCount(order, width);
  }

  lemma StartsListed(t: Table, job: string, listed: seq<string>)
    requires forall w :: w in listed <==> Slot(w, job) in t && IsNew(t[Slot(w, job)])
    ensures CallSet(listed, Start) == StartCalls(t, job)
  {
    forall c: Call ensures c in CallSet(listed, Start) <==> c in StartCalls(t, job) {
      assert c == Call(c.worker, c.action);
    }
  }

  method HandleNewAllocations(rt: Runtime, tx: Tx, job: string, r: Rollout, ghost opts: DeployOptions)
    returns (ok: bool, ghost x: Phase)
    requires NoDup(r.catalog)
    modifies rt`trace, rt`choices
    ensures rt.trace == old(rt.trace) + x.part
    ensures Rolled(tx.table, job, r, opts, x) && x.action == Start && x.ok == ok
  {
    var newAllocations := tx.Select(job, IsNew);
    StartsListed(tx.table, job, newAllocations);
    if |newAllocations| == 0 {
      return true, Phase(Start, newAllocations, [], true);
    }
    AllActive(tx.table, job, newAllocations);
    OrderCalls(tx.table, job, r, newAllocations, Start);
    ghost var segments, final;
    ok, segments, final := RolloutStartBatches(rt, tx, job, r, newAllocations);
    x := Phase(Start, newAllocations, TraceOf(segments) + final, ok);
  }

  lemma {:induction false} UpdatesListed(
    updated: seq<string>, t: Table, job: string, opts: DeployOptions, policy: JobPolicy, action: Action)
    requires NoDup(updated) && action != Start
    requires forall w :: w in updated <==> Slot(w, job) in t && NeedsRestart(t[Slot(w, job)], opts.force)
    ensures var listed := Picks(updated, t, job, opts, policy, action);
      NoDup(listed) && CallSet(listed, action) == PhaseCalls(t, job, opts, policy, action)
  {
    PicksSpec(updated, t, job, opts, policy, action);
    var listed := Picks(updated, t, job, opts, policy, action);
    forall c: Call ensures c in CallSet(listed, action) <==> c in UpdateCalls(t, job, opts, policy, action) {
      assert c == Call(c.worker, c.action);
    }
  }

  method RolloutListed(
    rt: Runtime, tx: Tx, job: string, r: Rollout, ghost opts: DeployOptions, listed: seq<string>, action: Action)
    returns (ok: bool, ghost x: Phase)
    requires NoDup(listed) && CallSet(listed, action) == PhaseCalls(tx.table, job, opts, r.policy, action)
    requires action != Start
    modifies rt`trace, rt`choices
    ensures rt.trace == old(rt.trace) + x.part
    ensures Rolled(tx.table, job, r, opts, x) && x.action == action && x.ok == ok
  {
    if |listed| == 0 {
      return true, Phase(action, listed, [], true);
    }
    ghost var segments;
    ok, segments := RolloutRestartBatches(rt, tx, job, r, listed, action);
    x := Phase(action, listed, TraceOf(segments), ok);
  }

  function PartsOf(phases: seq<Phase>): Trace {
    if phases == [] then [] else PartsOf(phases[..|phases| - 1]) + phases[|phases| - 1].part
  }

  /** Phases for these actions in order, each begun only after the one before went well. */
  ghost predicate InOrder(
    t: Table, job: string, r: Rollout, opts: DeployOptions, actions: seq<Action>, phases: seq<Phase>)
  {
    && 1 <= |phases| <= |actions|
    && (forall k :: 0 <= k < |phases| ==>
          phases[k].action == actions[k] && Rolled(t, job, r, opts, phases[k]) && (k < |phases| - 1 ==> phases[k].ok))
    && (phases[|phases| - 1].ok ==> |phases| == |actions|)
  }

  /** Reloads first, then restarts. */
  method HandleUpdatedAllocations(rt: Runtime, tx: Tx, job: string, r: Rollout, opts: DeployOptions)
    returns (ok: bool, ghost phases: seq<Phase>)
    modifies rt`trace, rt`choices
    ensures rt.trace == old(rt.trace) + PartsOf(phases)
    ensures InOrder(tx.table, job, r, opts, [Reload, Restart], phases) && ok == phases[|phases| - 1].ok
  {
    var updated := AllocationsNeedingRestart(tx, job, opts.force);
    var restart, reload := SplitUpdated(tx, job, updated, opts, r.policy);
    UpdatesListed(updated, tx.table, job, opts, r.policy, Reload);
    UpdatesListed(updated, tx.table, job, opts, r.policy, Restart);
    ghost var first, second;
    ok, first := RolloutListed(rt, tx, job, r, opts, reload, Reload);
    OnePart(first);
    OneInOrder(tx.table, job, r, opts, first);
    if !ok {
      return ok, [first];
    }
    ok, second := RolloutListed(rt, tx, job, r, opts, restart, Restart);
    TwoParts(first, second);
    Assoc(old(rt.trace), first.part, second.part);
    TwoInOrder(tx.table, job, r, opts, first, second);
    phases := [first, second];
  }

  lemma OneInOrder(t: Table, job: string, r: Rollout, opts: DeployOptions, x: Phase)
    requires Rolled(t, job, r, opts, x) && x.action == Reload
    ensures !x.ok ==> InOrder(t, job, r, opts, [Reload, Restart], [x])
  {
  }

  lemma TwoInOrder(t: Table, job: string, r: Rollout, opts: DeployOptions, x: Phase, y: Phase)
    requires Rolled(t, job, r, opts, x) && x.action == Reload && x.ok
    requires Rolled(t, job, r, opts, y) && y.action == Restart
    ensures InOrder(t, job, r, opts, [Reload, Restart], [x, y])
  {
  }

  lemma OnePart(x: Phase)
    ensures PartsOf([x]) == x.part
  {
    assert PartsOf([]) == [];
  }

  lemma TwoParts(x: Phase, y: Phase)
    ensures PartsOf([x, y]) == x.part + y.part
  {
    OnePart(x);
    assert [x, y][..1] == [x];
  }

  lemma {:induction false} PartsAfter(x: Phase, phases: seq<Phase>)
    ensures PartsOf([x] + phases) == x.part + PartsOf(phases)
    decreases |phases|
  {
    OnePart(x);
    if phases == [] {
      assert [x] + phases == [x];
    } else {
      var n := |phases| - 1;
      PartsAfter(x, phases[..n]);
      LastOfSum([x], phases);
      Assoc(x.part, PartsOf(phases[..n]), phases[n].part);
    }
  }

  /* ---- promotion ---- */

  function PromoteJob(t: Table, job: string): Table {
    map slot | slot in t :: if slot.job == job && !t[slot].removed then PromoteRow(t[slot]) else t[slot]
  }

  method PromoteAllocationHash(tx: Tx, job: string)
    modifies tx
    ensures tx.table == PromoteJob(old(tx.table), job)
  {
    var workers := tx.Select(job, NonRemoved);
    ghost var t := tx.table;
    for i := 0 to |workers|
      invariant tx.table.Keys == t.Keys
      invariant forall slot :: slot in t ==>
        tx.table[slot] == (if slot.job == job && slot.worker in workers[..i] then PromoteRow(t[slot]) else t[slot])
    {
      assert workers[..i + 1] == workers[..i] + [workers[i]];
      assert workers[i] in workers && workers[i] !in workers[..i];
      tx.PromoteAllocationState(Slot(workers[i], job));
    }
    assert workers[..|workers|] == workers;
    forall slot | slot in t ensures tx.table[slot] == PromoteJob(t, job)[slot] {
      assert slot == Slot(slot.worker, slot.job);
    }
  }

  /** Post-deploy hooks, then promotion; a hook that fails leaves the rows as they are. */
  method FinalizeJobDeploy(rt: Runtime, tx: Tx, job: string) returns (ok: bool)
    modifies rt`trace, rt`choices, tx
    ensures rt.trace == old(rt.trace) + [Scripts(ok)]
    ensures tx.table == if ok then PromoteJob(old(tx.table), job) else old(tx.table)
  {
    ok := rt.RunScripts();
    if ok {
      PromoteAllocationHash(tx, job);
    }
  }

  /** A sync-only deploy starts nothing, so it is refused while an allocation waits for its first start. */
  method ValidateSyncOnlyRollout(tx: Tx, job: string) returns (valid: bool)
    ensures valid <==> Workers(tx.table, job, IsNew) == {}
  {
    var newAllocations := tx.Select(job, IsNew);
    valid := |newAllocations| == 0;
    if valid {
      assert newAllocations == [];
    } else {
      assert newAllocations[0] in Elems(newAllocations);
    }
  }

  /* ---- deploying one job ---- */

  /**
    The events a deploy by job_control commands waits for: each command, told which allocations are new and which are
    updated, the health check, the post-deploy hooks.
   */
  function ControlSteps(commands: nat, added: seq<string>, updated: seq<string>): Trace {
    seq(commands, i requires 0 <= i < commands => Control(i, added, updated, true)) + [Health(true), Scripts(true)]
  }

  /** Exactly the allocations to start, and exactly those to restart or reload, each once. */
  ghost predicate Lists(t: Table, job: string, force: bool, added: seq<string>, updated: seq<string>) {
    && NoDup(added) && (forall w :: w in added <==> Slot(w, job) in t && IsNew(t[Slot(w, job)]))
    && NoDup(updated) && (forall w :: w in updated <==> Slot(w, job) in t && NeedsRestart(t[Slot(w, job)], force))
  }

  ghost predicate ControlRun(t: Table, job: string, commands: nat, force: bool, part: Trace, ok: bool) {
    exists added, updated ::
      Lists(t, job, force, added, updated) && RunsThrough(ControlSteps(commands, added, updated), part, ok)
  }

  function Failed(e: Event): Event {
    match e
    case Began(c) => e
    case Ended(c, _) => Ended(c, false)
    case Hooks(c, _) => Hooks(c, false)
    case Health(_) => Health(false)
    case Scripts(_) => Scripts(false)
    case Control(k, added, updated, _) => Control(k, added, updated, false)
    case Cleanup(w, _) => Cleanup(w, false)
  }

  /** All the steps, or those up to the first that failed. */
  ghost predicate RunsThrough(steps: Trace, part: Trace, ok: bool) {
    if ok then part == steps
    else part != [] && |part| <= |steps| && part == steps[..|part| - 1] + [Failed(steps[|part| - 1])]
  }

  ghost predicate PlainRun(
    t: Table, job: string, r: Rollout, opts: DeployOptions, phases: seq<Phase>, part: Trace, ok: bool)
  {
    && InOrder(t, job, r, opts, [Start, Reload, Restart], phases)
    && (if phases[|phases| - 1].ok then part == PartsOf(phases) + [Scripts(ok)] else !ok && part == PartsOf(phases))
  }

  /**
    What deploying a job leaves in the trace. Sync-only: nothing if refused, else only the post-deploy hooks. By
    job_control commands: nothing if nothing is needed, else the commands, a health check and the hooks. Otherwise
    the starts, the reloads, the restarts, and the hooks. All of it up to the first failure.
   */
  ghost predicate DeployRun(
    t: Table, job: string, r: Rollout, commands: nat, opts: DeployOptions, phases: seq<Phase>, part: Trace, ok: bool)
  {
    if opts.syncOnly then
      if Workers(t, job, IsNew) == {} then RunsThrough([Scripts(true)], part, ok) else !ok && part == []
    else if commands > 0 then
      if opts.force || NeedsRollout(t, job) then ControlRun(t, job, commands, opts.force, part, ok) else ok && part == []
    else PlainRun(t, job, r, opts, phases, part, ok)
  }

  /** Whether a deploy that succeeds has promoted the rows: always, unless it had nothing to do. */
  ghost predicate Promotes(t: Table, job: string, commands: nat, opts: DeployOptions) {
    opts.syncOnly || commands == 0 || opts.force || NeedsRollout(t, job)
  }

  /** The rows after a job's deploy. */
  ghost function DeployedRows(t: Table, job: string, commands: nat, opts: DeployOptions, ok: bool): Table {
    if ok && Promotes(t, job, commands, opts) then PromoteJob(t, job) else t
  }

  predicate Quiet(e: Event) {
    e.Scripts? || e.Health? || e.Control?
  }

  lemma {:induction false} NoCalls(part: Trace)
    requires forall e :: e in part ==> Quiet(e)
    ensures Begun(part) == Finished(part) == multiset{}
  {
    if part != [] {
      NoCalls(part[..|part| - 1]);
      assert part[|part| - 1] in part;
    }
  }

  lemma {:induction false} StepsMakeNoCalls(steps: Trace, part: Trace, ok: bool)
    requires (forall e :: e in steps ==> Quiet(e)) && RunsThrough(steps, part, ok)
    ensures Begun(part) == Finished(part) == multiset{}
  {
    StepsAreSilent(steps, part, ok);
    NoCalls(part);
  }

  /**
    A deploy by job_control commands that is needed: each command, told exactly the allocations that are new and exactly
    those that a plain deploy would restart or reload, one health check, then the hooks; it succeeds if all of them
    pass, and ends at the first that does not.
   */
  lemma CommandsRunInTurn(
    t: Table, job: string, r: Rollout, commands: nat, opts: DeployOptions, phases: seq<Phase>, part: Trace, ok: bool)
    returns (added: seq<string>, updated: seq<string>)
    requires DeployRun(t, job, r, commands, opts, phases, part, ok)
    requires !opts.syncOnly && commands > 0 && (opts.force || NeedsRollout(t, job))
    ensures NoDup(added) && NoDup(updated)
    ensures forall w :: w in added <==> Slot(w, job) in t && IsNew(t[Slot(w, job)])
    ensures forall w :: w in updated <==> Slot(w, job) in t && NeedsRestart(t[Slot(w, job)], opts.force)
    ensures 0 < |part| <= commands + 2 && (ok ==> |part| == commands + 2)
    ensures forall i :: 0 <= i < |part| ==>
      (var passed := ok || i < |part| - 1;
       part[i] ==
         if i < commands then Control(i, added, updated, passed)
         else if i == commands then Health(passed)
         else Scripts(passed))
  {
    added, updated :|
      Lists(t, job, opts.force, added, updated) && RunsThrough(ControlSteps(commands, added, updated), part, ok);
  }

  /** A sync-only deploy runs the hooks and nothing else, unless an active allocation waits for its first start. */
  lemma SyncOnlyRunsHooks(
    t: Table, job: string, r: Rollout, commands: nat, opts: DeployOptions, phases: seq<Phase>, part: Trace, ok: bool)
    requires DeployRun(t, job, r, commands, opts, phases, part, ok) && opts.syncOnly
    ensures if exists w :: Slot(w, job) in t && IsNew(t[Slot(w, job)]) then !ok && part == [] else part == [Scripts(ok)]
  {
    if Workers(t, job, IsNew) != {} {
      var w :| w in Workers(t, job, IsNew);
    }
  }

  lemma WantedCallsSplit(t: Table, job: string, opts: DeployOptions, policy: JobPolicy)
    ensures multiset(WantedCalls(t, job, opts, policy))
         == multiset(StartCalls(t, job)) + (multiset(UpdateCalls(t, job, opts, policy, Reload))
              + multiset(UpdateCalls(t, job, opts, policy, Restart)))
  {
  }

  function SumOf(bounds: seq<multiset<Call>>): multiset<Call> {
    if bounds == [] then multiset{} else SumOf(bounds[..|bounds| - 1]) + bounds[|bounds| - 1]
  }

  /** What the first phases have called so far, against what each is for. */
  lemma {:induction false} PhasesMake(phases: seq<Phase>, bounds: seq<multiset<Call>>, ok: bool)
    requires |phases| == |bounds|
    requires forall k :: 0 <= k < |phases| ==>
      && Finished(phases[k].part) == Begun(phases[k].part) <= bounds[k]
      && (ok ==> Begun(phases[k].part) == bounds[k])
    ensures Finished(PartsOf(phases)) == Begun(PartsOf(phases)) <= SumOf(bounds)
    ensures ok ==> Begun(PartsOf(phases)) == SumOf(bounds)
    decreases |phases|
  {
    if phases != [] {
      var n := |phases| - 1;
      PhasesMake(phases[..n], bounds[..n], ok);
      CountsAdd(PartsOf(phases[..n]), phases[n].part);
    }
  }

  lemma SumOfThree(a: multiset<Call>, b: multiset<Call>, c: multiset<Call>, n: nat)
    requires 1 <= n <= 3
    ensures SumOf([a, b, c][..n]) <= a + (b + c)
    ensures n == 3 ==> SumOf([a, b, c][..n]) == a + (b + c)
  {
    assert SumOf([a]) == a by {
      assert [a][..0] == [];
    }
    assert SumOf([a, b]) == a + b by {
      assert [a, b][..1] == [a];
    }
    assert SumOf([a, b, c]) == a + b + c by {
      assert [a, b, c][..2] == [a, b];
    }
    assert [a, b, c][..n] == if n == 1 then [a] else if n == 2 then [a, b] else [a, b, c];
  }

  ghost function PhaseBounds(t: Table, job: string, opts: DeployOptions, policy: JobPolicy): seq<multiset<Call>> {
    [multiset(StartCalls(t, job)), multiset(UpdateCalls(t, job, opts, policy, Reload)),
     multiset(UpdateCalls(t, job, opts, policy, Restart))]
  }

  lemma PhaseWithin(
    t: Table, job: string, r: Rollout, opts: DeployOptions, phases: seq<Phase>, k: nat)
    requires NoDup(r.catalog) && InOrder(t, job, r, opts, [Start, Reload, Restart], phases) && k < |phases|
    ensures Finished(phases[k].part) == Begun(phases[k].part) <= PhaseBounds(t, job, opts, r.policy)[k]
    ensures phases[k].ok ==> Begun(phases[k].part) == PhaseBounds(t, job, opts, r.policy)[k]
    ensures phases[|phases| - 1].ok ==> phases[k].ok
  {
    PhaseMakes(t, job, r, opts, phases[k]);
    assert phases[k].action == [Start, Reload, Restart][k];
  }

  /** The first one, two or three phases make no call they are not for, and all of them if they all succeed. */
  lemma {:induction false} InOrderMakes(t: Table, job: string, r: Rollout, opts: DeployOptions, phases: seq<Phase>)
    requires NoDup(r.catalog) && InOrder(t, job, r, opts, [Start, Reload, Restart], phases)
    ensures Finished(PartsOf(phases)) == Begun(PartsOf(phases))
    ensures Begun(PartsOf(phases)) <= multiset(WantedCalls(t, job, opts, r.policy))
    ensures phases[|phases| - 1].ok ==> Begun(PartsOf(phases)) == multiset(WantedCalls(t, job, opts, r.policy))
  {
    var all, ok := PhaseBounds(t, job, opts, r.policy), phases[|phases| - 1].ok;
    forall k | 0 <= k < |phases|
      ensures Finished(phases[k].part) == Begun(phases[k].part) <= all[..|phases|][k]
      ensures ok ==> Begun(phases[k].part) == all[..|phases|][k]
    {
      PhaseWithin(t, job, r, opts, phases, k);
    }
    PhasesMake(phases, all[..|phases|], ok);
    SumOfThree(all[0], all[1], all[2], |phases|);
    WantedCallsSplit(t, job, opts, r.policy);
  }

  /** A plain deploy makes no call it should not, each at most once, and all it should if it succeeds. */
  lemma {:induction false} PlainRunMakes(
    t: Table, job: string, r: Rollout, opts: DeployOptions, phases: seq<Phase>, part: Trace, ok: bool)
    requires NoDup(r.catalog) && PlainRun(t, job, r, opts, phases, part, ok)
    ensures Finished(part) == Begun(part)
    ensures Begun(part) <= multiset(WantedCalls(t, job, opts, r.policy))
    ensures ok ==> Begun(part) == multiset(WantedCalls(t, job, opts, r.policy))
  {
    InOrderMakes(t, job, r, opts, phases);
    Snoc(PartsOf(phases), Scripts(ok));
  }

  /** Starts come first, then reloads, then restarts. */
  function Rank(action: Action): nat {
    match action
    case Start => 0
    case Reload => 1
    case _ => 2
  }

  predicate OfCall(e: Event) {
    e.Began? || e.Ended?
  }

  /** No call begins before all calls that are to come before it have ended. */
  ghost predicate InTurn(tr: Trace) {
    forall i, j :: 0 <= i < j < |tr| && OfCall(tr[i]) && OfCall(tr[j]) ==>
      Rank(tr[i].call.action) <= Rank(tr[j].call.action)
  }

  lemma {:induction false} CallsAreCounted(tr: Trace)
    ensures forall e :: e in tr && e.Began? ==> e.call in Begun(tr)
    ensures forall e :: e in tr && e.Ended? ==> e.call in Finished(tr)
  {
    if tr != [] {
      var front, last := tr[..|tr| - 1], tr[|tr| - 1];
      assert tr == front + [last];
      CallsAreCounted(front);
    }
  }

  lemma {:induction false} PhaseRank(t: Table, job: string, r: Rollout, opts: DeployOptions, x: Phase)
    requires NoDup(r.catalog) && Rolled(t, job, r, opts, x)
    ensures forall e :: e in x.part && OfCall(e) ==> e.call.action == x.action
  {
    PhaseMakes(t, job, r, opts, x);
    CallsAreCounted(x.part);
    var calls := PhaseCalls(t, job, opts, r.policy, x.action);
    forall e | e in x.part && OfCall(e) ensures e.call.action == x.action {
      assert e.call in multiset(calls);
    }
  }

  lemma InTurnAdds(a: Trace, b: Trace, rank: nat)
    requires InTurn(a) && forall e :: e in a && OfCall(e) ==> Rank(e.call.action) <= rank
    requires forall e :: e in b && OfCall(e) ==> Rank(e.call.action) == rank
    ensures InTurn(a + b) && forall e :: e in a + b && OfCall(e) ==> Rank(e.call.action) <= rank
  {
  }

  lemma {:induction false} PhasesInTurn(
    t: Table, job: string, r: Rollout, opts: DeployOptions, phases: seq<Phase>, n: nat)
    requires NoDup(r.catalog) && InOrder(t, job, r, opts, [Start, Reload, Restart], phases) && n <= |phases|
    ensures InTurn(PartsOf(phases[..n]))
    ensures forall e :: e in PartsOf(phases[..n]) && OfCall(e) ==> Rank(e.call.action) < n
    decreases n
  {
    if n > 0 {
      PhasesInTurn(t, job, r, opts, phases, n - 1);
      PhaseRank(t, job, r, opts, phases[n - 1]);
      assert phases[n - 1].action == [Start, Reload, Restart][n - 1];
      assert phases[..n][..n - 1] == phases[..n - 1];
      InTurnAdds(PartsOf(phases[..n - 1]), phases[n - 1].part, n - 1);
    }
  }

  /** In every deploy of a job all starts are over before a reload begins, and all reloads before a restart does. */
  lemma {:induction false} DeployIsInTurn(
    t: Table, job: string, r: Rollout, commands: nat, opts: DeployOptions, phases: seq<Phase>, part: Trace, ok: bool)
    requires NoDup(r.catalog) && DeployRun(t, job, r, commands, opts, phases, part, ok)
    ensures InTurn(part)
  {
    if opts.syncOnly || commands > 0 {
      CommandsAreSilent(t, job, r, commands, opts, phases, part, ok);
    } else {
      PhasesInTurn(t, job, r, opts, phases, |phases|);
      assert phases[..|phases|] == phases;
    }
  }

  /** The calls of a deploy of one job, whatever its kind and however it ends; every call it begins also ends. */
  lemma {:induction false} DeployMakes(
    t: Table, job: string, r: Rollout, commands: nat, opts: DeployOptions, phases: seq<Phase>, part: Trace, ok: bool)
    requires NoDup(r.catalog) && DeployRun(t, job, r, commands, opts, phases, part, ok)
    ensures Finished(part) == Begun(part)
    ensures opts.syncOnly || commands > 0 ==> Begun(part) == multiset{}
    ensures !opts.syncOnly && commands == 0 ==>
      && Begun(part) <= multiset(WantedCalls(t, job, opts, r.policy))
      && (ok ==> Begun(part) == multiset(WantedCalls(t, job, opts, r.policy)))
  {
    if opts.syncOnly {
      if part != [] {
        StepsMakeNoCalls([Scripts(true)], part, ok);
      }
    } else if commands > 0 {
      if part != [] {
        var added, updated :|
          Lists(t, job, opts.force, added, updated) && RunsThrough(ControlSteps(commands, added, updated), part, ok);
        StepsMakeNoCalls(ControlSteps(commands, added, updated), part, ok);
      }
    } else {
      PlainRunMakes(t, job, r, opts, phases, part, ok);
    }
  }

  lemma {:induction false} PartsArePaced(
    t: Table, job: string, r: Rollout, opts: DeployOptions, phases: seq<Phase>, limit: nat)
    requires NoDup(r.catalog)
    requires forall k :: 0 <= k < |phases| ==>
      Rolled(t, job, r, opts, phases[k]) && PhaseLimit(t, job, r, phases[k]) <= limit
    ensures Paced(PartsOf(phases), limit) && Finished(PartsOf(phases)) == Begun(PartsOf(phases))
    decreases |phases|
  {
    if phases == [] {
      SilentIsPaced([], limit);
    } else {
      var n := |phases| - 1;
      PartsArePaced(t, job, r, opts, phases[..n], limit);
      PhaseMakes(t, job, r, opts, phases[n]);
      PhaseIsPaced(t, job, r, opts, phases[n], limit);
      PacedAdds(PartsOf(phases[..n]), phases[n].part, limit);
      CountsAdd(PartsOf(phases[..n]), phases[n].part);
    }
  }

  ghost predicate WithinLimit(t: Table, job: string, r: Rollout, phases: seq<Phase>, limit: nat) {
    forall k :: 0 <= k < |phases| ==> PhaseLimit(t, job, r, phases[k]) <= limit
  }

  /** No deploy of a job, of any kind, has more calls in flight than the widest batch of its phases. */
  lemma {:induction false} DeployIsPaced(
    t: Table, job: string, r: Rollout, commands: nat, opts: DeployOptions, phases: seq<Phase>, part: Trace, ok: bool,
    limit: nat)
    requires NoDup(r.catalog) && DeployRun(t, job, r, commands, opts, phases, part, ok)
    requires WithinLimit(t, job, r, phases, limit)
    ensures Paced(part, limit)
  {
    if opts.syncOnly || commands > 0 {
      CommandsAreSilent(t, job, r, commands, opts, phases, part, ok);
      SilentIsPaced(part, limit);
    } else {
      PartsArePaced(t, job, r, opts, phases, limit);
      SilentIsPaced([Scripts(ok)], limit);
      PacedAdds(PartsOf(phases), [Scripts(ok)], limit);
    }
  }

  lemma CommandsAreSilent(
    t: Table, job: string, r: Rollout, commands: nat, opts: DeployOptions, phases: seq<Phase>, part: Trace, ok: bool)
    requires DeployRun(t, job, r, commands, opts, phases, part, ok) && (opts.syncOnly || commands > 0)
    ensures forall e :: e in part ==> !e.Began? && !e.Ended?
  {
    if part != [] && opts.syncOnly {
      StepsAreSilent([Scripts(true)], part, ok);
    } else if part != [] {
      var added, updated :|
        Lists(t, job, opts.force, added, updated) && RunsThrough(ControlSteps(commands, added, updated), part, ok);
      StepsAreSilent(ControlSteps(commands, added, updated), part, ok);
    }
  }

  lemma StepsAreSilent(steps: Trace, part: Trace, ok: bool)
    requires (forall e :: e in steps ==> Quiet(e)) && RunsThrough(steps, part, ok)
    ensures forall e :: e in part ==> Quiet(e)
  {
    if !ok {
      assert steps[|part| - 1] in steps;
    }
  }

  method DeployJobWithCommands(rt: Runtime, tx: Tx, job: string, commands: nat, opts: DeployOptions)
    returns (ok: bool, ghost part: Trace)
    modifies rt`trace, rt`choices, tx
    ensures rt.trace == old(rt.trace) + part
    ensures if opts.force || old(NeedsRollout(tx.table, job)) then
        ControlRun(old(tx.table), job, commands, opts.force, part, ok)
        && tx.table == if ok then PromoteJob(old(tx.table), job) else old(tx.table)
      else ok && part == [] && tx.table == old(tx.table)
  {
    part := [];
    if !opts.force {
      var needs := JobNeedsRollout(tx, job);
      if !needs {
        return true, [];
      }
    }
    var added := tx.Select(job, IsNew);
    var updated := AllocationsNeedingRestart(tx, job, opts.force);
    ghost var steps := ControlSteps(commands, added, updated);
    for i := 0 to commands
      invariant rt.trace == old(rt.trace) + part && part == steps[..i] && tx.table == old(tx.table)
    {
      var passed := rt.RunControl(i, added, updated);
      Assoc(old(rt.trace), part, [Control(i, added, updated, passed)]);
      part := part + [Control(i, added, updated, passed)];
      if !passed {
        assert RunsThrough(steps, part, false);
        return false, part;
      }
    }
    var healthy := rt.CheckHealth();
    Assoc(old(rt.trace), part, [Health(healthy)]);
    part := part + [Health(healthy)];
    if !healthy {
      return false, part;
    }
    ok := FinalizeJobDeploy(rt, tx, job);
    Assoc(old(rt.trace), part, [Scripts(ok)]);
    part := part + [Scripts(ok)];
  }

  method DeployPlainJob(rt: Runtime, tx: Tx, job: string, r: Rollout, opts: DeployOptions)
    returns (ok: bool, ghost phases: seq<Phase>, ghost part: Trace)
    requires NoDup(r.catalog)
    modifies rt`trace, rt`choices, tx
    ensures rt.trace == old(rt.trace) + part
    ensures tx.table == if ok then PromoteJob(old(tx.table), job) else old(tx.table)
    ensures PlainRun(old(tx.table), job, r, opts, phases, part, ok)
  {
    ghost var starts, updates;
    ok, starts := HandleNewAllocations(rt, tx, job, r, opts);
    OnePart(starts);
    if !ok {
      return ok, [starts], starts.part;
    }
    ok, updates := HandleUpdatedAllocations(rt, tx, job, r, opts);
    PartsAfter(starts, updates);
    Assoc(old(rt.trace), starts.part, PartsOf(updates));
    phases := [starts] + updates;
    part := PartsOf(phases);
    if !ok {
      return;
    }
    ok := FinalizeJobDeploy(rt, tx, job);
    Assoc(old(rt.trace), part, [Scripts(ok)]);
    part := part + [Scripts(ok)];
  }

  /** The whole deploy of one job. */
  method DeployJob(rt: Runtime, tx: Tx, job: string, r: Rollout, commands: nat, opts: DeployOptions)
    returns (ok: bool, ghost phases: seq<Phase>, ghost part: Trace)
    requires NoDup(r.catalog)
    modifies rt`trace, rt`choices, tx
    ensures rt.trace == old(rt.trace) + part
    ensures DeployRun(old(tx.table), job, r, commands, opts, phases, part, ok)
    ensures tx.table == DeployedRows(old(tx.table), job, commands, opts, ok)
  {
    phases := [];
    if opts.syncOnly {
      var valid := ValidateSyncOnlyRollout(tx, job);
      if !valid {
        return false, [], [];
      }
      ok := FinalizeJobDeploy(rt, tx, job);
      part := [Scripts(ok)];
      return;
    }
    if commands > 0 {
      ok, part := DeployJobWithCommands(rt, tx, job, commands, opts);
      return;
    }
    ok, phases, part := DeployPlainJob(rt, tx, job, r, opts);
  }

  /* ---- what the restart policies mean for a deploy ---- */

  /** An active allocation with a promoted hash, as its columns say. */
  predicate Running(t: Table, w: string, job: string) {
    Slot(w, job) in t &&
    (var a := t[Slot(w, job)];
     !a.removed && !a.disabled && a.plan.Some? && a.plan.value.previousHash.Some?)
  }

  predicate NewContent(t: Table, w: string, job: string)
    requires Running(t, w, job)
  {
    var p := t[Slot(w, job)].plan.value;
    p.currentHash.Some? && p.currentHash.value != p.previousHash.value
  }

  predicate NewVersion(t: Table, w: string, job: string)
    requires Running(t, w, job)
  {
    var a := t[Slot(w, job)];
    var running := if a.plan.value.currentVersion.Some? then a.plan.value.currentVersion.value else "0.0.0";
    running != if a.newVersion.Some? then a.newVersion.value else "0.0.0"
  }

  lemma {:induction false} CallCount(calls: set<Call>, c: Call)
    ensures multiset(calls)[c] == if c in calls then 1 else 0
  {
  }

  /** What a successful plain deploy calls on a worker. */
  lemma {:induction false} CallsOn(
    t: Table, job: string, r: Rollout, opts: DeployOptions, phases: seq<Phase>, part: Trace, w: string, x: Action)
    requires NoDup(r.catalog) && DeployRun(t, job, r, 0, opts, phases, part, true) && !opts.syncOnly
    ensures Begun(part)[Call(w, x)]
         == if Slot(w, job) in t && Active(t[Slot(w, job)]) && Command(t[Slot(w, job)], opts, r.policy) == Some(x)
            then 1 else 0
  {
    DeployMakes(t, job, r, 0, opts, phases, part, true);
    WantedRows(t, job, opts, r.policy, w, x);
    CallCount(WantedCalls(t, job, opts, r.policy), Call(w, x));
  }

  /** Sync-only, or with the policy "never", a deploy of any kind and end calls no worker but to start new allocations. */
  lemma {:induction false} NeverTouchesRunning(
    t: Table, job: string, r: Rollout, commands: nat, opts: DeployOptions, phases: seq<Phase>, part: Trace, ok: bool,
    c: Call)
    requires NoDup(r.catalog) && DeployRun(t, job, r, commands, opts, phases, part, ok) && Refreshed(t, job)
    requires (opts.syncOnly || r.policy.policy == "never") && c in Begun(part)
    ensures c.action == Start && !opts.syncOnly && Slot(c.worker, job) in t && !Running(t, c.worker, job)
  {
    DeployMakes(t, job, r, commands, opts, phases, part, ok);
    assert c in multiset(WantedCalls(t, job, opts, r.policy));
    assert c == Call(c.worker, c.action);
    WantedRows(t, job, opts, r.policy, c.worker, c.action);
    var a := t[Slot(c.worker, job)];
    PolicyOf(a, opts, r.policy);
  }

  lemma PolicyOf(a: Allocation, opts: DeployOptions, policy: JobPolicy)
    ensures var action := ExecutorAction(a, opts, policy);
      && (opts.syncOnly || policy.policy == "never" ==> action == Sync)
      && (!opts.syncOnly && policy.policy != "never" && policy.policy != "reload" ==> action == Restart)
      && (!opts.syncOnly && policy.policy == "reload" ==> action in {Reload, Restart})
  {
    PolicyTexts(
      opts.syncOnly, policy.policy, policy.matcher, policy.globs,
      UpdateOf(a, HashChanged(a), AllocationNeedsVersionRollout(a) && !HashChanged(a)));
  }

  /**
    With the policy "always", or any text but "never" and "reload", a successful deploy restarts each running allocation
    with new content or a new version, under force each running one, exactly once, and reloads none.
   */
  lemma {:induction false} AlwaysRestarts(
    t: Table, job: string, r: Rollout, opts: DeployOptions, phases: seq<Phase>, part: Trace, w: string)
    requires NoDup(r.catalog) && DeployRun(t, job, r, 0, opts, phases, part, true) && Refreshed(t, job)
    requires !opts.syncOnly && r.policy.policy != "never" && r.policy.policy != "reload"
    ensures Begun(part)[Call(w, Reload)] == 0
    ensures Begun(part)[Call(w, Restart)]
         == if Running(t, w, job) && (opts.force || NewContent(t, w, job) || NewVersion(t, w, job)) then 1 else 0
  {
    CallsOn(t, job, r, opts, phases, part, w, Reload);
    CallsOn(t, job, r, opts, phases, part, w, Restart);
    if Slot(w, job) in t {
      PolicyOf(t[Slot(w, job)], opts, r.policy);
    }
  }

  /** Whatever the policy, each active allocation without a promoted hash is started once, and no other. */
  lemma {:induction false} StartsWithoutPromoted(
    t: Table, job: string, r: Rollout, opts: DeployOptions, phases: seq<Phase>, part: Trace, w: string)
    requires NoDup(r.catalog) && DeployRun(t, job, r, 0, opts, phases, part, true) && Refreshed(t, job)
    requires !opts.syncOnly
    ensures var active := Slot(w, job) in t && !t[Slot(w, job)].removed && !t[Slot(w, job)].disabled;
      Begun(part)[Call(w, Start)] == if active && !Running(t, w, job) then 1 else 0
  {
    CallsOn(t, job, r, opts, phases, part, w, Start);
    if Slot(w, job) in t {
      PolicyOf(t[Slot(w, job)], opts, r.policy);
    }
  }

  ghost predicate ChangedFileMatches(previous: Manifest, current: Manifest, policy: JobPolicy) {
    exists path, g :: Differs(previous, current, path) && g in policy.globs && policy.matcher(g, path)
  }

  /**
    With the policy "reload", each such allocation is reloaded or restarted, once; it is restarted exactly if one of
    its changed files matches one of the globs, and never for a version alone or without a promoted manifest.
   */
  lemma {:induction false} ReloadRestartsIff(
    t: Table, job: string, r: Rollout, opts: DeployOptions, phases: seq<Phase>, part: Trace, w: string)
    requires NoDup(r.catalog) && DeployRun(t, job, r, 0, opts, phases, part, true) && Refreshed(t, job) && SoundTable(t)
    requires !opts.syncOnly && r.policy.policy == "reload" && Running(t, w, job)
    ensures var restarts, reloads := Begun(part)[Call(w, Restart)], Begun(part)[Call(w, Reload)];
      var p := t[Slot(w, job)].plan.value;
      && restarts + reloads == (if opts.force || NewContent(t, w, job) || NewVersion(t, w, job) then 1 else 0)
      && (NewContent(t, w, job) && p.previousFiles.None? ==> restarts == 0)
      && (!NewContent(t, w, job) && NewVersion(t, w, job) ==> restarts == 0)
      && (NewContent(t, w, job) && p.previousFiles.Some? && p.currentFiles.Some? ==>
            (restarts == 1 <==> ChangedFileMatches(p.previousFiles.value, p.currentFiles.value, r.policy)))
  {
    CallsOn(t, job, r, opts, phases, part, w, Reload);
    CallsOn(t, job, r, opts, phases, part, w, Restart);
    var a := t[Slot(w, job)];
    PolicyOf(a, opts, r.policy);
    VersionChecksAgree(a);
    var u := UpdateOf(a, HashChanged(a), AllocationNeedsVersionRollout(a) && !HashChanged(a));
    PolicyTexts(opts.syncOnly, r.policy.policy, r.policy.matcher, r.policy.globs, u);
    if NewContent(t, w, job) && a.plan.value.previousFiles.Some? {
      RestartIffTriggered(r.policy.matcher, r.policy.globs, u);
    }
  }

  /* ---- the dry run predicts it ---- */

  ghost predicate Refreshed(t: Table, job: string) {
    forall slot :: slot in t && slot.job == job && !t[slot].removed ==> t[slot].plan.Some?
  }

  /** The calls a dry run's report announces: one per allocation to be started, reloaded or restarted. */
  ghost function AnnouncedCalls(plan: JobPlan): set<Call> {
    set x | x in plan.allocations && x.action in {Start, Reload, Restart} :: Call(x.worker, x.action)
  }

  lemma {:induction false} PlanOf(
    t: Table, job: string, opts: DeployOptions, policy: JobPolicy, rows: seq<string>, plans: seq<AllocationPlan>)
    requires PlansRows(t, job, opts, policy, rows, plans)
    ensures forall w :: w in rows ==> Slot(w, job) in t && PlanAllocation(w, t[Slot(w, job)], opts, policy).plan in plans
    ensures forall x :: x in plans ==>
      x.worker in rows && Slot(x.worker, job) in t && x == PlanAllocation(x.worker, t[Slot(x.worker, job)], opts, policy).plan
  {
    forall w | w in rows
      ensures Slot(w, job) in t && PlanAllocation(w, t[Slot(w, job)], opts, policy).plan in plans
    {
      var i :| 0 <= i < |rows| && rows[i] == w;
      assert plans[i] in plans;
    }
    forall x | x in plans
      ensures x.worker in rows && Slot(x.worker, job) in t
        && x == PlanAllocation(x.worker, t[Slot(x.worker, job)], opts, policy).plan
    {
      var i :| 0 <= i < |plans| && plans[i] == x;
      PlanNames(rows[i], t[Slot(rows[i], job)], opts, policy);
      assert rows[i] in rows;
    }
  }

  lemma PlanNames(w: string, a: Allocation, opts: DeployOptions, policy: JobPolicy)
    ensures PlanAllocation(w, a, opts, policy).plan.worker == w
    ensures var action := PlanAllocation(w, a, opts, policy).plan.action;
      PlannedCommand(w, a, opts, policy) == if action in {Start, Reload, Restart} then Some(action) else None
  {
  }

  /** A call is announced exactly if the row of its worker is listed and planned for it. */
  lemma {:induction false} AnnouncedRows(
    plan: JobPlan, t: Table, catalog: seq<string>, job: string, opts: DeployOptions, policy: JobPolicy, w: string, x: Action)
    requires IsJobPlan(plan, t, catalog, job, opts, policy)
    ensures Call(w, x) in AnnouncedCalls(plan) <==>
      w in catalog && Slot(w, job) in t && !t[Slot(w, job)].removed
      && PlannedCommand(w, t[Slot(w, job)], opts, policy) == Some(x)
  {
    NonRemovedOrderedSpec(t, catalog, job);
    PlanOf(t, job, opts, policy, NonRemovedOrdered(t, catalog, job), plan.allocations);
    if Slot(w, job) in t {
      PlanNames(w, t[Slot(w, job)], opts, policy);
    }
  }

  lemma WantedRows(t: Table, job: string, opts: DeployOptions, policy: JobPolicy, w: string, x: Action)
    ensures Call(w, x) in WantedCalls(t, job, opts, policy) <==>
      Slot(w, job) in t && Active(t[Slot(w, job)]) && Command(t[Slot(w, job)], opts, policy) == Some(x)
  {
  }

  /** No surprise on this row: it is announced as it is deployed, or it is not listed and gets no command. */
  ghost predicate NoSurprise(a: Allocation, listed: bool, opts: DeployOptions, policy: JobPolicy) {
    if listed then !ForcedVersionOnly(a, opts, policy) else Command(a, opts, policy).None?
  }

  ghost predicate NoSurpriseAt(
    t: Table, catalog: seq<string>, job: string, opts: DeployOptions, policy: JobPolicy, w: string)
  {
    Slot(w, job) in t && Active(t[Slot(w, job)]) ==> NoSurprise(t[Slot(w, job)], w in catalog, opts, policy)
  }

  /** Every active row is on a listed worker and not a forced version-only restart, or gets no command. */
  ghost predicate NoSurprises(t: Table, catalog: seq<string>, job: string, opts: DeployOptions, policy: JobPolicy) {
    forall w :: NoSurpriseAt(t, catalog, job, opts, policy, w)
  }

  /**
    On a reachable, refreshed table, what a report announces is what a deploy calls if and only if no row surprises:
    none is off the catalog with a command to send, and none is a forced restart for a version alone.
   */
  lemma DryRunPredicts(
    plan: JobPlan, t: Table, catalog: seq<string>, job: string, opts: DeployOptions, policy: JobPolicy)
    requires SoundTable(t) && Refreshed(t, job) && IsJobPlan(plan, t, catalog, job, opts, policy)
    ensures AnnouncedCalls(plan) == WantedCalls(t, job, opts, policy) <==> NoSurprises(t, catalog, job, opts, policy)
  {
    forall w, x
      ensures NoSurpriseAt(t, catalog, job, opts, policy, w) ==>
        (Call(w, x) in AnnouncedCalls(plan) <==> Call(w, x) in WantedCalls(t, job, opts, policy))
    {
      AnnouncedRows(plan, t, catalog, job, opts, policy, w, x);
      WantedRows(t, job, opts, policy, w, x);
      NoSurpriseMeans(t, catalog, job, opts, policy, w);
    }
    if NoSurprises(t, catalog, job, opts, policy) {
      forall c: Call ensures c in AnnouncedCalls(plan) <==> c in WantedCalls(t, job, opts, policy) {
        assert NoSurpriseAt(t, catalog, job, opts, policy, c.worker);
        assert c == Call(c.worker, c.action);
      }
    } else {
      var w :| !NoSurpriseAt(t, catalog, job, opts, policy, w);
      NoSurpriseMeans(t, catalog, job, opts, policy, w);
      var x := Command(t[Slot(w, job)], opts, policy).value;
      AnnouncedRows(plan, t, catalog, job, opts, policy, w, x);
      WantedRows(t, job, opts, policy, w, x);
    }
  }

  lemma NoSurpriseMeans(t: Table, catalog: seq<string>, job: string, opts: DeployOptions, policy: JobPolicy, w: string)
    requires SoundTable(t) && Refreshed(t, job)
    ensures Slot(w, job) in t && Active(t[Slot(w, job)]) ==>
      (var a := t[Slot(w, job)];
       var planned := if w in catalog then PlannedCommand(w, a, opts, policy) else None;
       (NoSurpriseAt(t, catalog, job, opts, policy, w) <==> Command(a, opts, policy) == planned)
       && (!NoSurpriseAt(t, catalog, job, opts, policy, w) ==> Command(a, opts, policy).Some?))
    ensures Slot(w, job) in t && !Active(t[Slot(w, job)]) && !t[Slot(w, job)].removed ==>
      PlannedCommand(w, t[Slot(w, job)], opts, policy).None?
    ensures !(Slot(w, job) in t && Active(t[Slot(w, job)])) ==> NoSurpriseAt(t, catalog, job, opts, policy, w)
  {
    if Slot(w, job) in t && Active(t[Slot(w, job)]) {
      CommandMatchesPlan(w, t[Slot(w, job)], opts, policy);
    }
  }

  /** A sync-only deploy calls no worker; the dry run announces that exactly if no listed allocation is new. */
  lemma SyncOnlyAnnouncesStarts(
    plan: JobPlan, t: Table, catalog: seq<string>, job: string, opts: DeployOptions, policy: JobPolicy)
    requires SoundTable(t) && Refreshed(t, job) && IsJobPlan(plan, t, catalog, job, opts, policy) && opts.syncOnly
    ensures AnnouncedCalls(plan) == {} <==> !exists w :: w in catalog && w in Workers(t, job, IsNew)
  {
    forall w, x
      ensures Call(w, x) in AnnouncedCalls(plan) <==> w in catalog && w in Workers(t, job, IsNew) && x == Start
    {
      AnnouncedRows(plan, t, catalog, job, opts, policy, w, x);
      if Slot(w, job) in t && !t[Slot(w, job)].removed {
        SyncOnlyPlans(w, t[Slot(w, job)], opts, policy);
      }
    }
    if exists w :: w in catalog && w in Workers(t, job, IsNew) {
      var w :| w in catalog && w in Workers(t, job, IsNew);
      assert Call(w, Start) in AnnouncedCalls(plan);
    } else {
      forall c: Call ensures c !in AnnouncedCalls(plan) {
        assert c == Call(c.worker, c.action);
      }
    }
  }

  lemma SyncOnlyPlans(w: string, a: Allocation, opts: DeployOptions, policy: JobPolicy)
    requires Sound(a) && !a.removed && a.plan.Some? && opts.syncOnly
    ensures PlannedCommand(w, a, opts, policy) == if IsNew(a) then Some(Start) else None
  {
  }
}
