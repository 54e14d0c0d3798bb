/** The programs that run commands on workers: in parallel, in batches, and as the two kinds of rollout. */
module RolloutExecutor {
  import opened AllocationTable
  import opened Batches
  import opened Options
  import opened Ordering
  import opened RolloutPlanner
  import opened RolloutPolicy
  import opened RolloutTrace
  import opened Seqs

  /** What may happen next in a pool: a call that has its slot begins, or one in flight ends. */
  datatype Choice = Choice(waiting: multiset<Call>, running: multiset<Call>)

  /**
    The choice a pool leaves after a part of its run. Slots are taken in list order, one as soon as it is free, so a
    worker has its slot when all but `slots` workers before it are done.
   */
  function ChoiceAfter(part: Trace, workers: seq<string>, slots: nat, action: Action): Choice {
    Choice(Reached(part, workers, slots, action) - Begun(part), Begun(part) - Finished(part))
  }

  /** The calls that have had their slot. */
  function Reached(part: Trace, workers: seq<string>, slots: nat, action: Action): multiset<Call> {
    var done := |Finished(part)|;
    Calls(if done + slots < |workers| then workers[..done + slots] else workers, action)
  }

  function ChoicesOf(part: Trace, workers: seq<string>, slots: nat, action: Action): seq<Choice> {
    seq(|part|, i requires 0 <= i < |part| => ChoiceAfter(part[..i], workers, slots, action))
  }

  predicate Allowed(e: Event, c: Choice) {
    (e.Began? && e.call in c.waiting) || (e.Ended? && e.call in c.running)
  }

  /** A whole run of a pool: each event is one that could happen, until none could. */
  ghost predicate PoolRun(part: Trace, workers: seq<string>, slots: nat, action: Action) {
    && (forall i :: 0 <= i < |part| ==> Allowed(part[i], ChoiceAfter(part[..i], workers, slots, action)))
    && ChoiceAfter(part, workers, slots, action) == Choice(multiset{}, multiset{})
  }

  /**
    One goroutine per worker behind a semaphore: a slot is taken in list order, but calls begin, end and fail in any
    way the slots allow. One failure does not keep the others from running.
   */
  method RunInSlots(rt: Runtime, workers: seq<string>, slots: nat, action: Action) returns (ok: bool, ghost part: Trace)
    requires slots > 0
    modifies rt`trace, rt`choices
    ensures rt.trace == old(rt.trace) + part
    ensures rt.choices == old(rt.choices) + ChoicesOf(part, workers, slots, action)
    ensures PoolRun(part, workers, slots, action) && ParallelRun(part, workers, action, slots)
    ensures ok <==> AllPassed(part)
  {
    part := [];
    ok := true;
    var spawned := 0;
    var waiting: multiset<Call> := multiset{};
    var running: multiset<Call> := multiset{};
    while spawned < |workers| || |waiting| + |running| > 0
      invariant spawned <= |workers|
      invariant InProgress(part, workers[..spawned], action, waiting, running, slots)
      invariant rt.trace == old(rt.trace) + part
      invariant rt.choices == old(rt.choices) + ChoicesOf(part, workers, slots, action)
      invariant AllAllowed(part, workers, slots, action)
      invariant ok <==> AllPassed(part)
      decreases 3 * (|workers| - spawned) + 2 * |waiting| + |running|
    {
      spawned, waiting := TakeSlots(part, workers, spawned, action, waiting, running, slots);
      ChoiceIs(part, workers, spawned, action, waiting, running, slots);
      var e;
      e, waiting, running := NextEvent(rt, part, workers[..spawned], action, waiting, running, slots);
      Happens(part, e, workers, slots, action, old(rt.trace), old(rt.choices));
      ok := ok && (e.Ended? ==> e.ok);
      part := part + [e];
    }
    AllDone(part, workers, spawned, action, waiting, running, slots);
    ChoiceIs(part, workers, spawned, action, waiting, running, slots);
  }

  /** A call that has its slot begins, or one in flight ends and frees its slot. */
  method NextEvent(
    rt: Runtime, ghost part: Trace, ghost spawned: seq<string>, ghost action: Action, waiting: multiset<Call>,
    running: multiset<Call>, ghost slots: nat)
    returns (e: Event, fewer: multiset<Call>, now: multiset<Call>)
    requires InProgress(part, spawned, action, waiting, running, slots) && |waiting| + |running| > 0
    modifies rt`trace, rt`choices
    ensures rt.trace == old(rt.trace) + [e] && rt.choices == old(rt.choices) + [Choice(waiting, running)]
    ensures Allowed(e, Choice(waiting, running))
    ensures InProgress(part + [e], spawned, action, fewer, now, slots)
    ensures 2 * |fewer| + |now| < 2 * |waiting| + |running|
    ensures AllPassed(part + [e]) <==> AllPassed(part) && (e.Ended? ==> e.ok)
  {
    e := rt.Await(waiting, running);
    if e.Began? {
      CallBegins(part, spawned, action, waiting, running, slots, e.call);
      fewer, now := waiting - multiset{e.call}, running + multiset{e.call};
    } else {
      CallEnds(part, spawned, action, waiting, running, slots, e.call, e.ok);
      fewer, now := waiting, running - multiset{e.call};
    }
  }

  /** The loop over the workers, up to where it waits for a slot. */
  method TakeSlots(
    ghost part: Trace, workers: seq<string>, spawned: nat, action: Action, waiting: multiset<Call>,
    running: multiset<Call>, slots: nat)
    returns (n: nat, more: multiset<Call>)
    requires spawned <= |workers| && InProgress(part, workers[..spawned], action, waiting, running, slots)
    ensures spawned <= n <= |workers| && InProgress(part, workers[..n], action, more, running, slots)
    ensures n == |workers| || |more| + |running| == slots
    ensures |more| - n == |waiting| - spawned
  {
    n, more := spawned, waiting;
    while n < |workers| && |more| + |running| < slots
      invariant spawned <= n <= |workers| && InProgress(part, workers[..n], action, more, running, slots)
      invariant |more| - n == |waiting| - spawned
    {
      SlotTaken(part, workers, n, action, more, running, slots);
      more := more + multiset{Call(workers[n], action)};
      n := n + 1;
    }
  }

  /** What a run does besides calling workers, in one wave or for one job of it. */
  datatype What =
    | Prerequisites
    | Prepare(wave: int)
    | PreDeploy(wave: int, job: string)
    | Stage(wave: int, job: string)
    | Persist(wave: int, job: string)
    | FinalSync
    | Commit

  datatype Step = Step(what: What, ok: bool)

  /**
    Everything outside the programs: commands, hooks, health checks and the steps of a run succeed or fail as they
    please, and what happened is recorded.
   */
  class Runtime {
    var trace: Trace
    /** What the pools of workers could have gone on with, each time one of their calls began or ended. */
    var choices: seq<Choice>
    var steps: seq<Step>

    constructor ()
      ensures trace == [] && choices == [] && steps == []
    {
      trace, choices, steps := [], [], [];
    }

    /** Which of these calls begins or ends next. */
    method Await(waiting: multiset<Call>, running: multiset<Call>) returns (e: Event)
      requires |waiting| + |running| > 0
      modifies this`trace, this`choices
      ensures Allowed(e, Choice(waiting, running))
      ensures trace == old(trace) + [e] && choices == old(choices) + [Choice(waiting, running)]
    {
      if {
        case |waiting| > 0 =>
          var call :| call in waiting;
          e := Began(call);
        case |running| > 0 =>
          var call :| call in running;
          var passed: bool := *;
          e := Ended(call, passed);
      }
      trace := trace + [e];
      choices := choices + [Choice(waiting, running)];
    }

    method Take(what: What) returns (ok: bool)
      modifies this`steps
      ensures steps == old(steps) + [Step(what, ok)]
    {
      ok := *;
      steps := steps + [Step(what, ok)];
    }

    method RunHooks(context: BatchContext) returns (ok: bool)
      modifies this`trace
      ensures trace == old(trace) + [Hooks(context, ok)]
    {
      ok := *;
      trace := trace + [Hooks(context, ok)];
    }

    method RunScripts() returns (ok: bool)
      modifies this`trace
      ensures trace == old(trace) + [Scripts(ok)]
    {
      ok := *;
      trace := trace + [Scripts(ok)];
    }

    method RunControl(command: nat, added: seq<string>, updated: seq<string>) returns (ok: bool)
      modifies this`trace
      ensures trace == old(trace) + [Control(command, added, updated, ok)]
    {
      ok := *;
      trace := trace + [Control(command, added, updated, ok)];
    }

    method CheckHealth() returns (ok: bool)
      modifies this`trace
      ensures trace == old(trace) + [Health(ok)]
    {
      ok := *;
      trace := trace + [Health(ok)];
    }

    method CleanUp(worker: string) returns (ok: bool)
      modifies this`trace
      ensures trace == old(trace) + [Cleanup(worker, ok)]
    {
      ok := *;
      trace := trace + [Cleanup(worker, ok)];
    }

    method RunWorkerCommand(call: Call) returns (ok: bool)
      modifies this`trace
      ensures trace == old(trace) + [Began(call), Ended(call, ok)]
    {
      ok := *;
      trace := trace + [Began(call), Ended(call, ok)];
    }

    method RunParallelWorkers(workers: seq<string>, parallelism: int, action: Action)
      returns (ok: bool, ghost part: Trace)
      modifies this`trace, this`choices
      ensures trace == old(trace) + part
      ensures var total := |workers|;
        var slots :=
          if total == 0 then 0 else if parallelism < 1 then 1 else if parallelism > total then total else parallelism;
        && choices == old(choices) + ChoicesOf(part, workers, slots, action)
        && PoolRun(part, workers, slots, action) && ParallelRun(part, workers, action, slots)
      ensures ok <==> AllPassed(part)
    {
      if |workers| == 0 {
        part := [];
        assert Calls(workers, action) == multiset{};
        return true, part;
      }
      var slots := if parallelism < 1 then 1 else parallelism;
      if slots > |workers| {
        slots := |workers|;
      }
      ok, part := RunInSlots(this, workers, slots, action);
    }
  }

  /** Every worker that took a slot is waiting to begin, running, or done. */
  ghost predicate InProgress(
    part: Trace, spawned: seq<string>, action: Action, waiting: multiset<Call>, running: multiset<Call>, slots: nat)
  {
    && OnlyCalls(part) && WellPaced(part, slots) && |waiting| + |running| <= slots
    && Begun(part) + waiting == Calls(spawned, action)
    && Finished(part) + running == Begun(part)
  }

  ghost predicate AllAllowed(part: Trace, workers: seq<string>, slots: nat, action: Action) {
    forall i :: 0 <= i < |part| ==> Allowed(part[i], ChoiceAfter(part[..i], workers, slots, action))
  }

  lemma {:induction false} CallsCount(workers: seq<string>, action: Action)
    ensures |Calls(workers, action)| == |workers|
  {
    if workers != [] {
      CallsCount(workers[..|workers| - 1], action);
    }
  }

  lemma TakesAway(all: multiset<Call>, part: multiset<Call>, rest: multiset<Call>)
    requires part + rest == all
    ensures all - part == rest && |all| == |part| + |rest|
  {
  }

  /** Where the loop waits for a slot, or has none left to take, the pool leaves exactly this choice. */
  lemma ChoiceIs(
    part: Trace, workers: seq<string>, spawned: nat, action: Action,
    waiting: multiset<Call>, running: multiset<Call>, slots: nat)
    requires spawned <= |workers| && InProgress(part, workers[..spawned], action, waiting, running, slots)
    requires spawned == |workers| || |waiting| + |running| == slots
    ensures ChoiceAfter(part, workers, slots, action) == Choice(waiting, running)
  {
    CallsCount(workers[..spawned], action);
    TakesAway(Calls(workers[..spawned], action), Begun(part), waiting);
    TakesAway(Begun(part), Finished(part), running);
    ReachedIs(part, workers, slots, action, spawned);
  }

  lemma {:induction false} ReachedIs(part: Trace, workers: seq<string>, slots: nat, action: Action, n: nat)
    requires n <= |workers|
    requires n == |Finished(part)| + slots || (n == |workers| && n <= |Finished(part)| + slots)
    ensures Reached(part, workers, slots, action) == Calls(workers[..n], action)
  {
    assert workers[..|workers|] == workers;
  }

  lemma AllowedSnoc(part: Trace, e: Event, workers: seq<string>, slots: nat, action: Action)
    requires AllAllowed(part, workers, slots, action) && Allowed(e, ChoiceAfter(part, workers, slots, action))
    ensures AllAllowed(part + [e], workers, slots, action)
  {
    forall i | 0 <= i < |part + [e]|
      ensures Allowed((part + [e])[i], ChoiceAfter((part + [e])[..i], workers, slots, action))
    {
      assert (part + [e])[..i] == part[..i];
      assert part[..|part|] == part;
    }
  }

  lemma ChoicesSnoc(part: Trace, e: Event, workers: seq<string>, slots: nat, action: Action)
    ensures ChoicesOf(part + [e], workers, slots, action)
         == ChoicesOf(part, workers, slots, action) + [ChoiceAfter(part, workers, slots, action)]
  {
    forall i | 0 <= i <= |part| ensures (part + [e])[..i] == part[..i] {
    }
    assert part[..|part|] == part;
  }

  lemma Happens(
    part: Trace, e: Event, workers: seq<string>, slots: nat, action: Action, trace: Trace, choices: seq<Choice>)
    requires AllAllowed(part, workers, slots, action) && Allowed(e, ChoiceAfter(part, workers, slots, action))
    ensures AllAllowed(part + [e], workers, slots, action)
    ensures (trace + part) + [e] == trace + (part + [e])
    ensures (choices + ChoicesOf(part, workers, slots, action)) + [ChoiceAfter(part, workers, slots, action)]
         == choices + ChoicesOf(part + [e], workers, slots, action)
  {
    AllowedSnoc(part, e, workers, slots, action);
    ChoicesSnoc(part, e, workers, slots, action);
    ChoiceJoins(choices, ChoicesOf(part, workers, slots, action), [ChoiceAfter(part, workers, slots, action)]);
    Assoc(trace, part, [e]);
  }

  lemma ChoiceJoins(a: seq<Choice>, b: seq<Choice>, c: seq<Choice>)
    ensures (a + b) + c == a + (b + c)
  {
  }

  lemma {:induction false} CallsGrow(workers: seq<string>, action: Action, n: nat, m: nat)
    requires n <= m <= |workers|
    ensures Calls(workers[..n], action) <= Calls(workers[..m], action)
    decreases m
  {
    if n < m {
      CallsGrow(workers, action, n, m - 1);
      CallsTake(workers, action, m - 1);
    }
  }

  function Least(a: nat, b: nat): (m: nat) {
    if a < b then a else b
  }

  lemma {:induction false} ReachedGrows(before: Trace, after: Trace, workers: seq<string>, slots: nat, action: Action)
    requires |Finished(before)| <= |Finished(after)|
    ensures Reached(before, workers, slots, action) <= Reached(after, workers, slots, action)
  {
    var n, m := Least(|Finished(before)| + slots, |workers|), Least(|Finished(after)| + slots, |workers|);
    ReachedIs(before, workers, slots, action, n);
    ReachedIs(after, workers, slots, action, m);
    CallsGrow(workers, action, n, m);
  }

  lemma OneFits(begun: multiset<Call>, reached: multiset<Call>, call: Call)
    requires begun <= reached && call in reached - begun
    ensures begun + multiset{call} <= reached
  {
  }

  lemma {:induction false} EventHasSlot(part: Trace, e: Event, workers: seq<string>, slots: nat, action: Action)
    requires Begun(part) <= Reached(part, workers, slots, action)
    requires Allowed(e, ChoiceAfter(part, workers, slots, action))
    ensures Begun(part + [e]) <= Reached(part + [e], workers, slots, action)
  {
    Snoc(part, e);
    ReachedGrows(part, part + [e], workers, slots, action);
    if e.Began? {
      OneFits(Begun(part), Reached(part, workers, slots, action), e.call);
    }
  }

  lemma TakeOne(part: Trace, i: nat)
    requires i < |part|
    ensures part[..i + 1] == part[..i] + [part[i]]
  {
  }

  /** Only workers that have taken a slot have begun. */
  lemma {:induction false} BegunHaveSlots(part: Trace, workers: seq<string>, slots: nat, action: Action, i: nat)
    requires AllAllowed(part, workers, slots, action) && i <= |part|
    ensures Begun(part[..i]) <= Reached(part[..i], workers, slots, action)
  {
    if i > 0 {
      BegunHaveSlots(part, workers, slots, action, i - 1);
      TakeOne(part, i - 1);
      EventHasSlot(part[..i - 1], part[i - 1], workers, slots, action);
    }
  }

  lemma Sizes(reached: multiset<Call>, begun: multiset<Call>, finished: multiset<Call>)
    requires finished <= begun <= reached
    ensures |reached - begun| == |reached| - |begun| && |begun - finished| == |begun| - |finished|
  {
    assert begun + (reached - begun) == reached && finished + (begun - finished) == begun;
  }

  /**
    At every moment of its run a pool is as wide as it can be: as many calls as it has slots, or all that are left, are
    in flight or free to begin.
   */
  lemma PoolStaysFull(part: Trace, workers: seq<string>, slots: nat, action: Action, i: nat)
    requires PoolRun(part, workers, slots, action) && ParallelRun(part, workers, action, slots) && i <= |part|
    ensures var c, left := ChoiceAfter(part[..i], workers, slots, action), |workers| - |Finished(part[..i])|;
      && |c.waiting| + |c.running| == (if left < slots then left else slots)
      && |c.running| == InFlight(part[..i])
  {
    var now := part[..i];
    PacedAt(part, slots, i);
    BegunHaveSlots(part, workers, slots, action, i);
    Sizes(Reached(now, workers, slots, action), Begun(now), Finished(now));
    var n := |Finished(now)| + slots;
    CallsCount(if n < |workers| then workers[..n] else workers, action);
  }

  lemma AllDone(
    part: Trace, workers: seq<string>, n: nat, action: Action,
    waiting: multiset<Call>, running: multiset<Call>, slots: nat)
    requires n == |workers| && InProgress(part, workers[..n], action, waiting, running, slots)
    requires |waiting| + |running| == 0
    ensures ParallelRun(part, workers, action, slots)
  {
    assert workers[..n] == workers;
    assert waiting == multiset{} && running == multiset{};
  }

  lemma Assoc(a: Trace, b: Trace, c: Trace)
    ensures (a + b) + c == a + (b + c)
  {
  }

  lemma {:induction false} CallsTake(workers: seq<string>, action: Action, n: nat)
    requires n < |workers|
    ensures Calls(workers[..n + 1], action) == Calls(workers[..n], action) + multiset{Call(workers[n], action)}
  {
    assert workers[..n + 1][..n] == workers[..n];
  }

  lemma SlotTaken(
    part: Trace, workers: seq<string>, n: nat, action: Action,
    waiting: multiset<Call>, running: multiset<Call>, slots: nat)
    requires n < |workers| && InProgress(part, workers[..n], action, waiting, running, slots)
    requires |waiting| + |running| < slots
    ensures var more := waiting + multiset{Call(workers[n], action)};
      |more| == |waiting| + 1 && InProgress(part, workers[..n + 1], action, more, running, slots)
  {
    CallsTake(workers, action, n);
  }

  lemma CallMoves(to: multiset<Call>, from: multiset<Call>, call: Call)
    requires call in from
    ensures (to + multiset{call}) + (from - multiset{call}) == to + from
    ensures |from - multiset{call}| == |from| - 1
  {
  }

  lemma CallBegins(
    part: Trace, spawned: seq<string>, action: Action,
    waiting: multiset<Call>, running: multiset<Call>, slots: nat, call: Call)
    requires InProgress(part, spawned, action, waiting, running, slots) && call in waiting
    ensures var fewer, more := waiting - multiset{call}, running + multiset{call};
      && |fewer| == |waiting| - 1 && |more| == |running| + 1
      && InProgress(part + [Began(call)], spawned, action, fewer, more, slots)
      && (AllPassed(part + [Began(call)]) <==> AllPassed(part))
  {
    Snoc(part, Began(call));
    CallMoves(Begun(part), waiting, call);
    assert Finished(part) + (running + multiset{call}) == Begun(part) + multiset{call};
    PacedSnoc(part, Began(call), slots);
    AllPassedSnoc(part, Began(call));
  }

  lemma CallEnds(
    part: Trace, spawned: seq<string>, action: Action,
    waiting: multiset<Call>, running: multiset<Call>, slots: nat, call: Call, passed: bool)
    requires InProgress(part, spawned, action, waiting, running, slots) && call in running
    ensures var fewer, e := running - multiset{call}, Ended(call, passed);
      && |fewer| == |running| - 1
      && InProgress(part + [e], spawned, action, waiting, fewer, slots)
      && (AllPassed(part + [e]) <==> AllPassed(part) && passed)
  {
    Snoc(part, Ended(call, passed));
    CallMoves(Finished(part), running, call);
    PacedSnoc(part, Ended(call, passed), slots);
    AllPassedSnoc(part, Ended(call, passed));
  }

  lemma AllPassedSnoc(part: Trace, e: Event)
    ensures AllPassed(part + [e]) <==> AllPassed(part) && (e.Ended? ==> e.ok)
  {
  }

  /** The index loop over a list stands at index i, before batch k. */
  ghost predicate At(order: seq<string>, size: nat, i: nat, k: nat) {
    size > 0 && i == k * size && k <= |Cut(order, size)| && (i < |order| <==> k < |Cut(order, size)|)
  }

  lemma AtStart(order: seq<string>, size: nat)
    requires size > 0
    ensures At(order, size, 0, 0)
  {
  }

  lemma {:induction false} AtNext(order: seq<string>, size: nat, i: nat, k: nat)
    requires At(order, size, i, k) && i < |order|
    ensures k < |Cut(order, size)| && i / size == k
    ensures Cut(order, size)[k] == order[i..Min(i + size, |order|)]
    ensures At(order, size, i + size, k + 1)
  {
    CutAt(order, size, k);
    assert (k + 1) * size == i + size;
    if i + size < |order| {
      CutReaches(order, size, k + 1);
    } else if k + 1 < |Cut(order, size)| {
      CutAt(order, size, k + 1);
    }
  }

  lemma {:induction false} AtEnd(order: seq<string>, size: nat, i: nat, k: nat)
    requires At(order, size, i, k) && i >= |order|
    ensures k == |Cut(order, size)|
  {
  }

  function Concat(parts: seq<Trace>): Trace {
    if parts == [] then [] else Concat(parts[..|parts| - 1]) + parts[|parts| - 1]
  }

  /** The first batches, one parallel run each, every call of them passed. */
  ghost predicate BatchesPassed(parts: seq<Trace>, batches: seq<seq<string>>, action: Action)
    decreases |parts|
  {
    parts == [] ||
    (var k := |parts| - 1;
     && k < |batches| && BatchesPassed(parts[..k], batches, action)
     && ParallelRun(parts[k], batches[k], action, |batches[k]|) && AllPassed(parts[k]))
  }

  /** One parallel run per batch, in order, each begun only after every call of the one before has passed. */
  ghost predicate BatchRuns(parts: seq<Trace>, batches: seq<seq<string>>, action: Action, ok: bool) {
    if ok then |parts| == |batches| && BatchesPassed(parts, batches, action)
    else
      && 0 < |parts| <= |batches|
      && (var k := |parts| - 1;
          && BatchesPassed(parts[..k], batches, action)
          && ParallelRun(parts[k], batches[k], action, |batches[k]|) && !AllPassed(parts[k]))
  }

  lemma {:induction false} RanOne(parts: seq<Trace>, batches: seq<seq<string>>, action: Action, calls: Trace, ok: bool)
    requires BatchesPassed(parts, batches, action) && |parts| < |batches|
    requires ParallelRun(calls, batches[|parts|], action, |batches[|parts|]|) && (ok <==> AllPassed(calls))
    ensures Concat(parts + [calls]) == Concat(parts) + calls
    ensures if ok then BatchesPassed(parts + [calls], batches, action) else BatchRuns(parts + [calls], batches, action, false)
  {
    assert (parts + [calls])[..|parts|] == parts;
  }

  /** The choices of the parallel runs, each with a slot for each worker of its batch. */
  function BatchChoices(parts: seq<Trace>, batches: seq<seq<string>>, action: Action): seq<Choice> {
    if parts == [] || |parts| > |batches| then []
    else
      var k := |parts| - 1;
      BatchChoices(parts[..k], batches, action) + ChoicesOf(parts[k], batches[k], |batches[k]|, action)
  }

  /** The loop stands at index i, everything before it passed. */
  ghost predicate InBatches(parts: seq<Trace>, workers: seq<string>, size: nat, i: nat, action: Action) {
    At(workers, size, i, |parts|) && BatchesPassed(parts, Cut(workers, size), action)
  }

  lemma {:induction false} NextBatch(
    parts: seq<Trace>, workers: seq<string>, size: nat, i: nat, action: Action, batch: seq<string>, calls: Trace,
    ok: bool, base: seq<Choice>)
    requires InBatches(parts, workers, size, i, action) && i < |workers|
    requires batch == workers[i..Min(i + size, |workers|)]
    requires ParallelRun(calls, batch, action, |batch|) && (ok <==> AllPassed(calls))
    ensures Concat(parts + [calls]) == Concat(parts) + calls
    ensures ok ==> InBatches(parts + [calls], workers, size, i + size, action)
    ensures !ok ==> BatchRuns(parts + [calls], Cut(workers, size), action, false)
    ensures (base + BatchChoices(parts, Cut(workers, size), action)) + ChoicesOf(calls, batch, |batch|, action)
         == base + BatchChoices(parts + [calls], Cut(workers, size), action)
  {
    AtNext(workers, size, i, |parts|);
    assert (parts + [calls])[..|parts|] == parts;
    ChoiceJoins(base, BatchChoices(parts, Cut(workers, size), action), ChoicesOf(calls, batch, |batch|, action));
    RanOne(parts, Cut(workers, size), action, calls, ok);
  }

  method RunOneBatch(rt: Runtime, batch: seq<string>, action: Action) returns (ok: bool, ghost calls: Trace)
    modifies rt`trace, rt`choices
    ensures rt.trace == old(rt.trace) + calls
    ensures rt.choices == old(rt.choices) + ChoicesOf(calls, batch, |batch|, action)
    ensures ParallelRun(calls, batch, action, |batch|) && (ok <==> AllPassed(calls))
  {
    ok, calls := rt.RunParallelWorkers(batch, |batch|, action);
  }

  /** Batches without hooks, up to the first that fails. */
  method RunWorkerBatches(rt: Runtime, workers: seq<string>, batchSize: int, action: Action)
    returns (ok: bool, ghost parts: seq<Trace>)
    modifies rt`trace, rt`choices
    ensures rt.trace == old(rt.trace) + Concat(parts)
    ensures var batches := Cut(workers, if batchSize < 1 then 1 else batchSize);
      BatchRuns(parts, batches, action, ok) && rt.choices == old(rt.choices) + BatchChoices(parts, batches, action)
  {
    var size := if batchSize < 1 then 1 else batchSize;
    parts := [];
    var i := 0;
    AtStart(workers, size);
    while i < |workers|
      invariant InBatches(parts, workers, size, i, action)
      invariant rt.trace == old(rt.trace) + Concat(parts)
      invariant rt.choices == old(rt.choices) + BatchChoices(parts, Cut(workers, size), action)
    {
      var end := if i + size > |workers| then |workers| else i + size;
      var passed; ghost var calls;
      passed, calls := RunOneBatch(rt, workers[i..end], action);
      Assoc(old(rt.trace), Concat(parts), calls);
      NextBatch(parts, workers, size, i, action, workers[i..end], calls, passed, old(rt.choices));
      parts := parts + [calls];
      if !passed {
        return false, parts;
      }
      i := i + size;
    }
    AtEnd(workers, size, i, |parts|);
    return true, parts;
  }

  lemma {:induction false} PassedBatchesMake(parts: seq<Trace>, batches: seq<seq<string>>, action: Action)
    requires BatchesPassed(parts, batches, action)
    ensures |parts| <= |batches| && Begun(Concat(parts)) == Calls(Flat(batches[..|parts|]), action)
    ensures Finished(Concat(parts)) == Begun(Concat(parts))
    decreases |parts|
  {
    if parts == [] {
      assert batches[..0] == [];
    } else {
      PassedBatchesMake(parts[..|parts| - 1], batches, action);
      OneMoreBatch(parts, batches, action);
    }
  }

  lemma {:induction false} OneMoreBatch(parts: seq<Trace>, batches: seq<seq<string>>, action: Action)
    requires 0 < |parts| <= |batches|
    requires Begun(Concat(parts[..|parts| - 1])) == Calls(Flat(batches[..|parts| - 1]), action)
    requires Finished(Concat(parts[..|parts| - 1])) == Begun(Concat(parts[..|parts| - 1]))
    requires ParallelRun(parts[|parts| - 1], batches[|parts| - 1], action, |batches[|parts| - 1]|)
    ensures Begun(Concat(parts)) == Calls(Flat(batches[..|parts|]), action)
    ensures Finished(Concat(parts)) == Begun(Concat(parts))
  {
    var k := |parts| - 1;
    CountsAdd(Concat(parts[..k]), parts[k]);
    FlatTake(batches, k);
    CallsAdd(Flat(batches[..k]), batches[k], action);
  }

  /** However it ends, each worker of the batches reached is called once, every call ends, and success reaches all. */
  lemma {:induction false} BatchRunsMake(parts: seq<Trace>, workers: seq<string>, size: nat, action: Action, ok: bool)
    requires size > 0 && BatchRuns(parts, Cut(workers, size), action, ok)
    ensures |parts| <= |Cut(workers, size)|
    ensures Begun(Concat(parts)) == Calls(Flat(Cut(workers, size)[..|parts|]), action)
    ensures Finished(Concat(parts)) == Begun(Concat(parts))
    ensures ok ==> Begun(Concat(parts)) == Calls(workers, action)
  {
    var batches := Cut(workers, size);
    CutSpec(workers, size);
    if ok {
      PassedBatchesMake(parts, batches, action);
      assert batches[..|batches|] == batches;
    } else {
      PassedBatchesMake(parts[..|parts| - 1], batches, action);
      OneMoreBatch(parts, batches, action);
    }
  }

  /* ---- the two rollouts ---- */

  /** The workers of a list that are active for the job, in the list's order. */
  function ActiveOf(t: Table, job: string, workers: seq<string>): seq<string> {
    if workers == [] then []
    else
      var front, w := ActiveOf(t, job, workers[..|workers| - 1]), workers[|workers| - 1];
      if Slot(w, job) in t && Active(t[Slot(w, job)]) then front + [w] else front
  }

  lemma {:induction false} ActiveOfSpec(t: Table, job: string, workers: seq<string>)
    ensures forall w :: w in ActiveOf(t, job, workers) <==>
      w in workers && Slot(w, job) in t && Active(t[Slot(w, job)])
    ensures NoDup(workers) ==> NoDup(ActiveOf(t, job, workers))
  {
    if workers != [] {
      var front, last := workers[..|workers| - 1], workers[|workers| - 1];
      ActiveOfSpec(t, job, front);
      assert workers == front + [last];
    }
  }

  lemma {:induction false} ActiveOfKeepsOrder(t: Table, job: string, workers: seq<string>)
    ensures Sublist(ActiveOf(t, job, workers), workers)
  {
    if workers != [] {
      var front, last := workers[..|workers| - 1], workers[|workers| - 1];
      assert workers == front + [last];
      ActiveOfKeepsOrder(t, job, front);
      ActiveOfSpec(t, job, front);
      KeepsOrder(ActiveOf(t, job, front), front, last);
    }
  }

  method ActiveWorkers(tx: Tx, job: string, workers: seq<string>) returns (active: seq<string>)
    ensures active == ActiveOf(tx.table, job, workers)
  {
    active := [];
    for i := 0 to |workers|
      invariant active == ActiveOf(tx.table, job, workers[..i])
    {
      assert workers[..i + 1][..i] == workers[..i];
      if Slot(workers[i], job) in tx.table && Active(tx.table[Slot(workers[i], job)]) {
        active := active + [workers[i]];
      }
    }
    assert workers[..|workers|] == workers;
  }

  /** What a rollout of a job reads besides the table. */
  datatype Rollout = Rollout(
    catalog: seq<string>, storedOrder: Option<string>, maxConcurrentStarts: int, maxConcurrentUpgrades: int,
    policy: JobPolicy)

  /** The order the candidates are taken in: those still active, as the order resolution puts them. */
  function OrderOf(t: Table, job: string, r: Rollout, candidates: seq<string>): seq<string> {
    Resolve(NonRemovedOrdered(t, r.catalog, job), ActiveOf(t, job, candidates), r.storedOrder).ordered
  }

  /** Without a stored order: the active candidates as the catalog lists their workers, then the others as they came. */
  lemma {:induction false} OrderWithoutKey(t: Table, job: string, r: Rollout, candidates: seq<string>)
    returns (known: seq<string>, rest: seq<string>)
    requires NoDup(r.catalog) && NoDup(candidates) && r.storedOrder.None?
    ensures OrderOf(t, job, r, candidates) == known + rest
    ensures Sublist(known, r.catalog) && Sublist(rest, candidates)
    ensures forall w :: w in known <==> w in r.catalog && w in candidates && Slot(w, job) in t && Active(t[Slot(w, job)])
    ensures forall w :: w in rest <==> w !in r.catalog && w in candidates && Slot(w, job) in t && Active(t[Slot(w, job)])
  {
    var rows, active := NonRemovedOrdered(t, r.catalog, job), ActiveOf(t, job, candidates);
    NonRemovedOrderedSpec(t, r.catalog, job);
    ActiveOfSpec(t, job, candidates);
    if active == [] {
      return [], [];
    }
    NonRemovedKeepOrder(t, r.catalog, job);
    ActiveOfKeepsOrder(t, job, candidates);
    known, rest := CatalogOrderKeepsOrder(rows, active);
    SublistOfSublist(known, rows, r.catalog);
    SublistOfSublist(rest, active, candidates);
  }

  /** A stored order of exactly the active candidates is followed, however it is written. */
  lemma {:induction false} OrderFromKey(
    t: Table, job: string, r: Rollout, candidates: seq<string>, pieces: seq<Piece>)
    requires NoDup(candidates) && pieces != [] && Written(pieces)
    requires r.storedOrder == Some(ListText(pieces))
    requires ActiveOf(t, job, candidates) != []
    requires Permutes(Listed(pieces), ActiveOf(t, job, candidates))
    ensures OrderOf(t, job, r, candidates) == Listed(pieces)
  {
    ActiveOfSpec(t, job, candidates);
    StoredOrderIsTaken(NonRemovedOrdered(t, r.catalog, job), ActiveOf(t, job, candidates), pieces);
  }

  function StartSize(r: Rollout, total: nat): (size: nat)
    ensures size > 0
  {
    if total == 0 then 1 else EffectiveBatchSize(r.maxConcurrentStarts, total)
  }

  function RestartSize(r: Rollout): nat {
    if r.maxConcurrentUpgrades < 1 then 1 else r.maxConcurrentUpgrades
  }

  /** A run of batches stands at index i, everything before it having gone well. */
  ghost predicate InRun(order: seq<string>, size: nat, i: nat, segments: seq<Segment>, action: Action, outcome: Outcome) {
    && At(order, size, i, |segments|) && Follows(segments, Cut(order, size), action) && AllEnded(segments, outcome)
  }

  /** What the loop tells the hooks of the batch at index i. */
  function ContextAt(order: seq<string>, size: nat, i: nat): BatchContext
    requires size > 0 && i < |order|
  {
    BatchContext(order[i..Min(i + size, |order|)], i / size, BatchCount(|order|, size))
  }

  method TakeBatch(order: seq<string>, size: nat, i: nat, total: int) returns (context: BatchContext)
    requires size > 0 && i < |order| && total == BatchCount(|order|, size)
    ensures context == ContextAt(order, size, i)
  {
    var end := if i + size > |order| then |order| else i + size;
    context := BatchContext(order[i..end], i / size, total);
  }

  lemma FollowsSnoc(segments: seq<Segment>, batches: seq<seq<string>>, action: Action, next: Segment)
    requires Follows(segments, batches, action) && |segments| < |batches| && SoundSegment(next, action)
    requires next.context == BatchContext(batches[|segments|], |segments|, |batches|)
    ensures Follows(segments + [next], batches, action)
  {
  }

  lemma {:induction false} TraceSnoc(segments: seq<Segment>, next: Segment)
    ensures TraceOf(segments + [next]) == TraceOf(segments) + Events(next)
    ensures (segments + [next])[..|segments|] == segments
  {
  }

  /** The next segment continues the run if it goes well, and is its last if it does not. */
  lemma {:induction false} NextSegment(
    order: seq<string>, size: nat, i: nat, segments: seq<Segment>, action: Action, outcome: Outcome, next: Segment)
    requires InRun(order, size, i, segments, action, outcome) && i < |order|
    requires SoundSegment(next, action) && next.context == ContextAt(order, size, i)
    ensures Follows(segments + [next], Cut(order, size), action)
    ensures next.outcome == outcome ==> InRun(order, size, i + size, segments + [next], action, outcome)
  {
    NextContext(order, size, i, |segments|);
    FollowsSnoc(segments, Cut(order, size), action, next);
    EndedSnoc(segments, outcome, next);
  }

  lemma {:induction false} NextContext(order: seq<string>, size: nat, i: nat, k: nat)
    requires At(order, size, i, k) && i < |order|
    ensures k < |Cut(order, size)| && At(order, size, i + size, k + 1)
    ensures ContextAt(order, size, i) == BatchContext(Cut(order, size)[k], k, |Cut(order, size)|)
  {
    CutSpec(order, size);
    AtNext(order, size, i, k);
  }

  lemma EndedSnoc(segments: seq<Segment>, outcome: Outcome, next: Segment)
    requires AllEnded(segments, outcome)
    ensures next.outcome == outcome ==> AllEnded(segments + [next], outcome)
  {
  }

  lemma RestartStops(segments: seq<Segment>, batches: seq<seq<string>>, action: Action, next: Segment)
    requires Follows(segments + [next], batches, action) && AllEnded(segments, Healthy)
    requires next.outcome in {CallFailed, HookFailed, Unhealthy}
    ensures RestartRun(segments + [next], batches, action, false)
  {
  }

  lemma StartStops(segments: seq<Segment>, batches: seq<seq<string>>, action: Action, next: Segment)
    requires Follows(segments + [next], batches, action) && AllEnded(segments, HooksDone)
    requires next.outcome in {CallFailed, HookFailed}
    ensures StartRun(segments + [next], batches, action, [], false)
  {
  }

  /** The choices of a rollout: each batch has a pool with a slot for each of its workers. */
  function SegmentChoices(segments: seq<Segment>, action: Action): seq<Choice> {
    if segments == [] then []
    else
      var x := segments[|segments| - 1];
      SegmentChoices(segments[..|segments| - 1], action) + ChoicesOf(x.calls, x.context.batch, |x.context.batch|, action)
  }

  lemma {:induction false} SegmentChoicesSnoc(segments: seq<Segment>, x: Segment, action: Action, base: seq<Choice>)
    ensures (base + SegmentChoices(segments, action)) + ChoicesOf(x.calls, x.context.batch, |x.context.batch|, action)
         == base + SegmentChoices(segments + [x], action)
  {
    assert (segments + [x])[..|segments|] == segments;
    ChoiceJoins(
      base, SegmentChoices(segments, action), ChoicesOf(x.calls, x.context.batch, |x.context.batch|, action));
  }

  /** One batch: its calls in parallel and, if they all succeed, its hooks. */
  method RunBatch(rt: Runtime, context: BatchContext, action: Action) returns (outcome: Outcome, ghost calls: Trace)
    modifies rt`trace, rt`choices
    ensures outcome in {CallFailed, HookFailed, HooksDone}
    ensures rt.trace == old(rt.trace) + Events(Segment(context, calls, outcome))
    ensures rt.choices == old(rt.choices) + ChoicesOf(calls, context.batch, |context.batch|, action)
    ensures SoundSegment(Segment(context, calls, outcome), action)
  {
    var passed;
    passed, calls := RunOneBatch(rt, context.batch, action);
    if !passed {
      assert Events(Segment(context, calls, CallFailed)) == calls;
      return CallFailed, calls;
    }
    var hooks := rt.RunHooks(context);
    Assoc(old(rt.trace), calls, [Hooks(context, hooks)]);
    outcome := if hooks then HooksDone else HookFailed;
  }

  lemma HealthAfterHooks(context: BatchContext, calls: Trace, healthy: bool, before: Trace, action: Action)
    requires SoundSegment(Segment(context, calls, HooksDone), action)
    ensures var s := Segment(context, calls, if healthy then Healthy else Unhealthy);
      && SoundSegment(s, action)
      && (before + Events(Segment(context, calls, HooksDone))) + [Health(healthy)] == before + Events(s)
  {
  }

  /** One more batch of a restart rollout: the rollout goes on if it ended healthy, and is over otherwise. */
  lemma RestartStep(
    order: seq<string>, size: nat, i: nat, segments: seq<Segment>, action: Action, next: Segment, before: Trace,
    base: seq<Choice>)
    returns (more: seq<Segment>)
    requires InRun(order, size, i, segments, action, Healthy) && i < |order|
    requires SoundSegment(next, action) && next.context == ContextAt(order, size, i)
    requires next.outcome in {CallFailed, HookFailed, Unhealthy, Healthy}
    ensures if next.outcome == Healthy then InRun(order, size, i + size, more, action, Healthy)
            else RestartRun(more, Cut(order, size), action, false)
    ensures (before + TraceOf(segments)) + Events(next) == before + TraceOf(more)
    ensures var b := next.context.batch;
      (base + SegmentChoices(segments, action)) + ChoicesOf(next.calls, b, |b|, action)
        == base + SegmentChoices(more, action)
  {
    more := segments + [next];
    SegmentChoicesSnoc(segments, next, action, base);
    NextSegment(order, size, i, segments, action, Healthy, next);
    if next.outcome != Healthy {
      RestartStops(segments, Cut(order, size), action, next);
    }
    Assoc(before, TraceOf(segments), Events(next));
    TraceSnoc(segments, next);
  }

  lemma {:induction false} RestartEnds(order: seq<string>, size: nat, i: nat, segments: seq<Segment>, action: Action)
    requires InRun(order, size, i, segments, action, Healthy) && i >= |order|
    ensures RestartRun(segments, Cut(order, size), action, true)
  {
    AtEnd(order, size, i, |segments|);
  }

  /** One batch of a restart rollout: after its hooks a health check. */
  method RestartBatch(rt: Runtime, context: BatchContext, action: Action) returns (outcome: Outcome, ghost calls: Trace)
    modifies rt`trace, rt`choices
    ensures outcome in {CallFailed, HookFailed, Unhealthy, Healthy}
    ensures rt.trace == old(rt.trace) + Events(Segment(context, calls, outcome))
    ensures rt.choices == old(rt.choices) + ChoicesOf(calls, context.batch, |context.batch|, action)
    ensures SoundSegment(Segment(context, calls, outcome), action)
  {
    ghost var before := rt.trace;
    outcome, calls := RunBatch(rt, context, action);
    if outcome == HooksDone {
      var healthy := rt.CheckHealth();
      HealthAfterHooks(context, calls, healthy, before, action);
      outcome := if healthy then Healthy else Unhealthy;
    }
  }

  method RestartInOrder(rt: Runtime, order: seq<string>, size: nat, action: Action)
    returns (ok: bool, ghost segments: seq<Segment>)
    requires size > 0
    modifies rt`trace, rt`choices
    ensures rt.trace == old(rt.trace) + TraceOf(segments)
    ensures rt.choices == old(rt.choices) + SegmentChoices(segments, action)
    ensures RestartRun(segments, Cut(order, size), action, ok)
  {
    segments := [];
    var total := BatchCount(|order|, size);
    var i := 0;
    AtStart(order, size);
    while i < |order|
      invariant InRun(order, size, i, segments, action, Healthy)
      invariant rt.trace == old(rt.trace) + TraceOf(segments)
      invariant rt.choices == old(rt.choices) + SegmentChoices(segments, action)
    {
      var context := TakeBatch(order, size, i, total);
      var outcome; ghost var calls;
      outcome, calls := RestartBatch(rt, context, action);
      ghost var next := Segment(context, calls, outcome);
      segments := RestartStep(order, size, i, segments, action, next, old(rt.trace), old(rt.choices));
      if outcome != Healthy {
        return false, segments;
      }
      i := i + size;
    }
    RestartEnds(order, size, i, segments, action);
    return true, segments;
  }

  method RolloutRestartBatches(rt: Runtime, tx: Tx, job: string, r: Rollout, candidates: seq<string>, action: Action)
    returns (ok: bool, ghost segments: seq<Segment>)
    modifies rt`trace, rt`choices
    ensures rt.trace == old(rt.trace) + TraceOf(segments)
    ensures rt.choices == old(rt.choices) + SegmentChoices(segments, action)
    ensures RestartRun(segments, Cut(OrderOf(tx.table, job, r, candidates), RestartSize(r)), action, ok)
    ensures var width := if r.maxConcurrentUpgrades < 1 then 1 else r.maxConcurrentUpgrades;
      RestartRun(segments, Cut(OrderOf(tx.table, job, r, candidates), width), action, ok)
  {
    if |candidates| == 0 {
      return true, [];
    }
    var active := ActiveWorkers(tx, job, candidates);
    if |active| == 0 {
      return true, [];
    }
    var resolved := ResolveRolloutOrder(NonRemovedOrdered(tx.table, r.catalog, job), active, r.storedOrder);
    ok, segments := RestartInOrder(rt, resolved.ordered, RestartSize(r), action);
  }

  /** One more batch of a start rollout: it goes on if the batch's hooks passed, and is over otherwise. */
  lemma StartStep(
    order: seq<string>, size: nat, i: nat, segments: seq<Segment>, next: Segment, before: Trace, base: seq<Choice>)
    returns (more: seq<Segment>)
    requires InRun(order, size, i, segments, Start, HooksDone) && i < |order|
    requires SoundSegment(next, Start) && next.context == ContextAt(order, size, i)
    requires next.outcome in {CallFailed, HookFailed, HooksDone}
    ensures if next.outcome == HooksDone then InRun(order, size, i + size, more, Start, HooksDone)
            else StartRun(more, Cut(order, size), Start, [], false)
    ensures (before + TraceOf(segments)) + Events(next) == before + TraceOf(more)
    ensures before + TraceOf(more) == before + (TraceOf(more) + [])
    ensures var b := next.context.batch;
      (base + SegmentChoices(segments, Start)) + ChoicesOf(next.calls, b, |b|, Start) == base + SegmentChoices(more, Start)
  {
    more := segments + [next];
    SegmentChoicesSnoc(segments, next, Start, base);
    NextSegment(order, size, i, segments, Start, HooksDone, next);
    if next.outcome != HooksDone {
      StartStops(segments, Cut(order, size), Start, next);
    }
    Assoc(before, TraceOf(segments), Events(next));
    TraceSnoc(segments, next);
  }

  lemma {:induction false} StartEnds(
    order: seq<string>, size: nat, i: nat, segments: seq<Segment>, healthy: bool, before: Trace)
    requires InRun(order, size, i, segments, Start, HooksDone) && i >= |order|
    ensures StartRun(segments, Cut(order, size), Start, [Health(healthy)], healthy)
    ensures (before + TraceOf(segments)) + [Health(healthy)] == before + (TraceOf(segments) + [Health(healthy)])
  {
    Assoc(before, TraceOf(segments), [Health(healthy)]);
    AtEnd(order, size, i, |segments|);
  }

  method StartInOrder(rt: Runtime, order: seq<string>, size: nat)
    returns (ok: bool, ghost segments: seq<Segment>, ghost final: Trace)
    requires size > 0
    modifies rt`trace, rt`choices
    ensures rt.trace == old(rt.trace) + (TraceOf(segments) + final)
    ensures rt.choices == old(rt.choices) + SegmentChoices(segments, Start)
    ensures StartRun(segments, Cut(order, size), Start, final, ok)
  {
    segments, final := [], [];
    var total := BatchCount(|order|, size);
    var i := 0;
    AtStart(order, size);
    while i < |order|
      invariant InRun(order, size, i, segments, Start, HooksDone)
      invariant rt.trace == old(rt.trace) + TraceOf(segments)
      invariant rt.choices == old(rt.choices) + SegmentChoices(segments, Start)
    {
      var context := TakeBatch(order, size, i, total);
      var outcome; ghost var calls;
      outcome, calls := RunBatch(rt, context, Start);
      segments := StartStep(order, size, i, segments, Segment(context, calls, outcome), old(rt.trace), old(rt.choices));
      if outcome != HooksDone {
        return false, segments, [];
      }
      i := i + size;
    }
    var healthy := rt.CheckHealth();
    StartEnds(order, size, i, segments, healthy, old(rt.trace));
    return healthy, segments, [Health(healthy)];
  }

  method RolloutStartBatches(rt: Runtime, tx: Tx, job: string, r: Rollout, candidates: seq<string>)
    returns (ok: bool, ghost segments: seq<Segment>, ghost final: Trace)
    modifies rt`trace, rt`choices
    ensures rt.trace == old(rt.trace) + (TraceOf(segments) + final)
    ensures rt.choices == old(rt.choices) + SegmentChoices(segments, Start)
    ensures ActiveOf(tx.table, job, candidates) == [] ==> ok && segments == [] && final == []
    ensures ActiveOf(tx.table, job, candidates) != [] ==>
      (var order := OrderOf(tx.table, job, r, candidates);
       var size := EffectiveBatchSize(r.maxConcurrentStarts, |order|);
       if size == 0 then segments == [] && final == [Health(ok)]
       else StartRun(segments, Cut(order, size), Start, final, ok))
  {
    if |candidates| == 0 {
      return true, [], [];
    }
    var active := ActiveWorkers(tx, job, candidates);
    if |active| == 0 {
      return true, [], [];
    }
    var resolved := ResolveRolloutOrder(NonRemovedOrdered(tx.table, r.catalog, job), active, r.storedOrder);
    var size := EffectiveBatchSize(r.maxConcurrentStarts, |resolved.ordered|);
    if size == 0 {
      ok := rt.CheckHealth();
      assert TraceOf([]) + [Health(ok)] == [Health(ok)];
      return ok, [], [Health(ok)];
    }
    ok, segments, final := StartInOrder(rt, resolved.ordered, size);
  }
}
