/** The first part of a deploy: stop what was removed or disabled, check the jobs it belonged to, drop the hash rows. */
module Reconcile {
  import opened AllocationTable
  import opened Options
  import opened RolloutExecutor
  import opened RolloutPolicy
  import opened RolloutTrace
  import opened Seqs

  predicate IsStopped(a: Allocation) {
    a.removed || a.disabled
  }

  predicate WasDeployed(a: Allocation) {
    GetAllocationHash(a).previous != ""
  }

  /** A removed allocation whose worker is gone: its commands may fail. */
  predicate AssumeDead(slot: Slot, a: Allocation, catalog: set<string>) {
    a.removed && slot.worker !in catalog
  }

  function ReconciledRow(a: Allocation): Allocation {
    if a.removed then a.(plan := None) else a
  }

  /** Reconciling drops the hash rows of removed allocations and keeps every other row, disabled ones included. */
  function Reconciled(t: Table): Table {
    map slot | slot in t :: ReconciledRow(t[slot])
  }

  /* ---- stopping one allocation ---- */

  /** What was tried for one allocation, each with its result: the stop, the hooks after it, the cleanup. */
  datatype Stopping = Stopping(slot: Slot, stopped: bool, hooks: Option<bool>, cleaned: Option<bool>)

  function StopTrace(x: Stopping): Trace {
    [Began(Call(x.slot.worker, Stop)), Ended(Call(x.slot.worker, Stop), x.stopped)]
    + (if x.hooks.Some? then [Scripts(x.hooks.value)] else [])
    + (if x.cleaned.Some? then [Cleanup(x.slot.worker, x.cleaned.value)] else [])
  }

  /** Each step is tried exactly if the one before passed; a failed command on a dead worker passes. */
  predicate InSequence(x: Stopping, a: Allocation, dead: bool) {
    && (x.hooks.Some? <==> x.stopped || dead)
    && (x.cleaned.Some? <==> x.hooks == Some(true) && a.removed)
  }

  predicate StopPassed(x: Stopping, a: Allocation, dead: bool) {
    && (x.stopped || dead) && x.hooks == Some(true)
    && (a.removed ==> x.cleaned.Some? && (x.cleaned.value || dead))
  }

  method StopAllocation(rt: Runtime, slot: Slot, a: Allocation, assumeDead: bool) returns (ok: bool, ghost x: Stopping)
    modifies rt`trace
    ensures rt.trace == old(rt.trace) + StopTrace(x)
    ensures x.slot == slot && InSequence(x, a, assumeDead) && (ok <==> StopPassed(x, a, assumeDead))
  {
    var stopped := rt.RunWorkerCommand(Call(slot.worker, Stop));
    x := Stopping(slot, stopped, None, None);
    assert StopTrace(x) == [Began(Call(slot.worker, Stop)), Ended(Call(slot.worker, Stop), stopped)];
    if !stopped && !assumeDead {
      return false, x;
    }
    ghost var before := StopTrace(x);
    var hooks := rt.RunScripts();
    x := x.(hooks := Some(hooks));
    assert StopTrace(x) == before + [Scripts(hooks)];
    Assoc(old(rt.trace), before, [Scripts(hooks)]);
    if !hooks {
      return false, x;
    }
    if a.removed {
      before := StopTrace(x);
      var cleaned := rt.CleanUp(slot.worker);
      x := x.(cleaned := Some(cleaned));
      assert StopTrace(x) == before + [Cleanup(slot.worker, cleaned)];
      Assoc(old(rt.trace), before, [Cleanup(slot.worker, cleaned)]);
      return cleaned || assumeDead, x;
    }
    return true, x;
  }

  /** The row is stopped if it was deployed; a removed one then loses its hash row, unless something failed. */
  method ReconcileStoppedAllocation(rt: Runtime, tx: Tx, slot: Slot, assumeDead: bool)
    returns (ok: bool, ghost stops: seq<Stopping>)
    requires slot in tx.table
    modifies rt`trace, tx
    ensures rt.trace == old(rt.trace) + StopsTrace(stops)
    ensures var a := old(tx.table)[slot];
      && (if WasDeployed(a) then
            && |stops| == 1 && stops[0].slot == slot && InSequence(stops[0], a, assumeDead)
            && (ok <==> StopPassed(stops[0], a, assumeDead))
          else ok && stops == [])
      && tx.table == if ok then old(tx.table)[slot := ReconciledRow(a)] else old(tx.table)
  {
    stops := [];
    ok := true;
    if WasDeployed(tx.table[slot]) {
      ghost var x;
      ok, x := StopAllocation(rt, slot, tx.table[slot], assumeDead);
      stops := [x];
      OneStop(x);
      if !ok {
        return;
      }
    }
    if tx.table[slot].removed {
      tx.RemoveAllocationHash(slot);
    } else {
      assert tx.table == tx.table[slot := tx.table[slot]];
    }
  }

  function StopsTrace(stops: seq<Stopping>): Trace {
    if stops == [] then [] else StopsTrace(stops[..|stops| - 1]) + StopTrace(stops[|stops| - 1])
  }

  lemma OneStop(x: Stopping)
    ensures StopsTrace([x]) == StopTrace(x)
  {
    assert StopsTrace([]) == [];
  }

  lemma {:induction false} StopsSnoc(stops: seq<Stopping>, x: Stopping)
    ensures StopsTrace(stops + [x]) == StopsTrace(stops) + StopTrace(x)
  {
    assert (stops + [x])[..|stops|] == stops;
  }

  /* ---- the rows ---- */

  /** The table once these rows have been reconciled. */
  function ReconciledBy(t: Table, rows: seq<Slot>): Table {
    map slot | slot in t :: if slot in rows then ReconciledRow(t[slot]) else t[slot]
  }

  lemma {:induction false} ReconcileStep(t: Table, rows: seq<Slot>, i: nat)
    requires i < |rows| && NoDup(rows) && forall slot :: slot in rows ==> slot in t
    ensures rows[i] in ReconciledBy(t, rows[..i]) && ReconciledBy(t, rows[..i])[rows[i]] == t[rows[i]]
    ensures ReconciledBy(t, rows[..i])[rows[i] := ReconciledRow(t[rows[i]])] == ReconciledBy(t, rows[..i + 1])
  {
    assert rows[..i + 1] == rows[..i] + [rows[i]];
    assert rows[i] !in rows[..i];
    assert rows[i] in rows;
  }

  /** A stop sent to an allocation of the table that is to be stopped, in sequence. */
  ghost predicate IsStop(x: Stopping, t: Table, catalog: set<string>) {
    && x.slot in t && IsStopped(t[x.slot]) && WasDeployed(t[x.slot])
    && InSequence(x, t[x.slot], AssumeDead(x.slot, t[x.slot], catalog))
  }

  ghost predicate Passed(x: Stopping, t: Table, catalog: set<string>) {
    x.slot in t && StopPassed(x, t[x.slot], AssumeDead(x.slot, t[x.slot], catalog))
  }

  ghost predicate EveryStopPassed(stops: seq<Stopping>, t: Table, catalog: set<string>) {
    forall x :: x in stops ==> Passed(x, t, catalog)
  }

  /** Stops of different allocations, all passed but perhaps the last. */
  ghost predicate Stops(stops: seq<Stopping>, t: Table, catalog: set<string>) {
    && (forall x :: x in stops ==> IsStop(x, t, catalog))
    && (forall i, k :: 0 <= i < k < |stops| ==> stops[i].slot != stops[k].slot)
    && (forall i :: 0 <= i < |stops| - 1 ==> Passed(stops[i], t, catalog))
  }

  /** Each of these rows that was deployed has been stopped, and no other. */
  ghost predicate StopsFor(stops: seq<Stopping>, rows: seq<Slot>, t: Table) {
    forall slot :: (exists x :: x in stops && x.slot == slot) <==> slot in rows && slot in t && WasDeployed(t[slot])
  }

  lemma StopsMore(
    stops: seq<Stopping>, more: seq<Stopping>, rows: seq<Slot>, i: nat, t: Table, catalog: set<string>, ok: bool)
    requires i < |rows| && NoDup(rows) && forall slot :: slot in rows ==> slot in t && IsStopped(t[slot])
    requires Stops(stops, t, catalog) && EveryStopPassed(stops, t, catalog) && StopsFor(stops, rows[..i], t)
    requires var a := t[rows[i]]; var dead := AssumeDead(rows[i], a, catalog);
      if WasDeployed(a) then
        |more| == 1 && more[0].slot == rows[i] && InSequence(more[0], a, dead) && (ok <==> StopPassed(more[0], a, dead))
      else ok && more == []
    ensures Stops(stops + more, t, catalog) && (ok <==> EveryStopPassed(stops + more, t, catalog))
    ensures StopsFor(stops + more, rows[..i + 1], t)
  {
    assert rows[..i + 1] == rows[..i] + [rows[i]] && rows[i] !in rows[..i] && rows[i] in rows;
    forall k | 0 <= k < |stops| ensures stops[k].slot != rows[i] {
      assert stops[k] in stops;
    }
    if more != [] {
      assert more == [more[0]] && more[0] in stops + more;
    }
    forall slot
      ensures (exists x :: x in stops + more && x.slot == slot) <==>
        slot in rows[..i + 1] && slot in t && WasDeployed(t[slot])
    {
      if exists x :: x in stops && x.slot == slot {
        var x :| x in stops && x.slot == slot;
        assert x in stops + more;
      }
    }
  }

  method ReconcileRows(rt: Runtime, tx: Tx, rows: seq<Slot>, catalog: set<string>)
    returns (ok: bool, ghost stops: seq<Stopping>)
    requires NoDup(rows) && forall slot :: slot in rows ==> slot in tx.table && IsStopped(tx.table[slot])
    modifies rt`trace, tx
    ensures rt.trace == old(rt.trace) + StopsTrace(stops)
    ensures Stops(stops, old(tx.table), catalog) && (ok <==> EveryStopPassed(stops, old(tx.table), catalog))
    ensures ok ==> tx.table == ReconciledBy(old(tx.table), rows) && StopsFor(stops, rows, old(tx.table))
  {
    ghost var t := tx.table;
    stops := [];
    assert ReconciledBy(t, []) == t;
    for i := 0 to |rows|
      invariant tx.table == ReconciledBy(t, rows[..i])
      invariant rt.trace == old(rt.trace) + StopsTrace(stops)
      invariant Stops(stops, t, catalog) && EveryStopPassed(stops, t, catalog) && StopsFor(stops, rows[..i], t)
    {
      ReconcileStep(t, rows, i);
      var slot := rows[i];
      ghost var more;
      ok, more := ReconcileStoppedAllocation(rt, tx, slot, AssumeDead(slot, tx.table[slot], catalog));
      StopsMore(stops, more, rows, i, t, catalog, ok);
      Assoc(old(rt.trace), StopsTrace(stops), StopsTrace(more));
      if more != [] {
        assert more == [more[0]];
        OneStop(more[0]);
        StopsSnoc(stops, more[0]);
      } else {
        assert stops + more == stops;
      }
      stops := stops + more;
      if !ok {
        return;
      }
    }
    assert rows[..|rows|] == rows;
    ok := true;
  }

  /* ---- the jobs they belonged to, and the workers that are gone ---- */

  datatype Check = Check(job: string, ok: bool)

  datatype Wipe = Wipe(worker: string, ok: bool)

  /** What a reconcile pass did: stops, health checks, and workers wiped. */
  datatype Pass = Pass(stops: seq<Stopping>, checks: seq<Check>, wipes: seq<Wipe>)

  function ChecksTrace(checks: seq<Check>): Trace {
    seq(|checks|, i requires 0 <= i < |checks| => Health(checks[i].ok))
  }

  function WipesTrace(wipes: seq<Wipe>): Trace {
    seq(|wipes|, i requires 0 <= i < |wipes| => Cleanup(wipes[i].worker, wipes[i].ok))
  }

  function PassTrace(p: Pass): Trace {
    StopsTrace(p.stops) + ChecksTrace(p.checks) + WipesTrace(p.wipes)
  }

  /** Jobs with an allocation that was stopped and one that is active. */
  function JobsToCheck(t: Table): set<string> {
    set slot | slot in t && IsStopped(t[slot]) && WasDeployed(t[slot]) && Workers(t, slot.job, Active) != {} :: slot.job
  }

  function WorkersToWipe(t: Table, catalog: set<string>): set<string> {
    set slot | slot in t && WasDeployed(t[slot]) && AssumeDead(slot, t[slot], catalog) :: slot.worker
  }

  /** Different jobs to check, all healthy but perhaps the last. */
  ghost predicate Checks(checks: seq<Check>, jobs: set<string>) {
    && (forall c :: c in checks ==> c.job in jobs)
    && (forall i, k :: 0 <= i < k < |checks| ==> checks[i].job != checks[k].job)
    && (forall i :: 0 <= i < |checks| - 1 ==> checks[i].ok)
  }

  ghost predicate AllHealthy(checks: seq<Check>) {
    forall c :: c in checks ==> c.ok
  }

  /**
    A reconcile pass over a table: it goes well exactly if every stop passed and every check was healthy, and then it
    has stopped all, checked all and wiped all that it has to. The checks begin only after every stop has passed.
   */
  ghost predicate IsPass(p: Pass, t: Table, catalog: set<string>, ok: bool) {
    && Stops(p.stops, t, catalog) && Checks(p.checks, JobsToCheck(t))
    && (ok <==> EveryStopPassed(p.stops, t, catalog) && AllHealthy(p.checks))
    && (p.checks != [] || ok ==> StopsAll(p.stops, t) && EveryStopPassed(p.stops, t, catalog))
    && (ok ==> forall j :: j in JobsToCheck(t) ==> Check(j, true) in p.checks)
    && (ok ==> Wiped(p.wipes) == WorkersToWipe(t, catalog) && |p.wipes| == |WorkersToWipe(t, catalog)|)
    && (!ok ==> p.wipes == [])
  }

  function Wiped(wipes: seq<Wipe>): set<string> {
    set x | x in wipes :: x.worker
  }

  /** Exactly the deployed allocations among the removed and disabled ones are stopped. */
  ghost predicate StopsAll(stops: seq<Stopping>, t: Table) {
    forall slot :: (exists x :: x in stops && x.slot == slot) <==> slot in t && IsStopped(t[slot]) && WasDeployed(t[slot])
  }

  method CheckJobs(rt: Runtime, jobs: set<string>) returns (ok: bool, ghost checks: seq<Check>)
    modifies rt`trace
    ensures rt.trace == old(rt.trace) + ChecksTrace(checks)
    ensures Checks(checks, jobs) && (ok <==> AllHealthy(checks))
    ensures ok ==> forall j :: j in jobs ==> Check(j, true) in checks
  {
    checks := [];
    var left := jobs;
    while left != {}
      invariant left <= jobs && rt.trace == old(rt.trace) + ChecksTrace(checks)
      invariant Checks(checks, jobs) && AllHealthy(checks)
      invariant forall j :: j in jobs <==> j in left || Check(j, true) in checks
      invariant forall c :: c in checks ==> c.job !in left
      decreases left
    {
      var job :| job in left;
      left := left - {job};
      var healthy := rt.CheckHealth();
      assert ChecksTrace(checks + [Check(job, healthy)]) == ChecksTrace(checks) + [Health(healthy)];
      Assoc(old(rt.trace), ChecksTrace(checks), [Health(healthy)]);
      forall k | 0 <= k < |checks| ensures checks[k].job != job && checks[k].ok {
        assert checks[k] in checks;
      }
      ghost var c := Check(job, healthy);
      checks := checks + [c];
      if !healthy {
        assert checks[|checks| - 1] == c;
        return false, checks;
      }
    }
    ok := true;
  }

  method WipeWorkers(rt: Runtime, workers: set<string>) returns (ghost wipes: seq<Wipe>)
    modifies rt`trace
    ensures rt.trace == old(rt.trace) + WipesTrace(wipes)
    ensures Wiped(wipes) == workers && |wipes| == |workers|
  {
    wipes := [];
    var left := workers;
    while left != {}
      invariant left <= workers && rt.trace == old(rt.trace) + WipesTrace(wipes)
      invariant Wiped(wipes) == workers - left && |wipes| == |workers - left|
      decreases left
    {
      var worker :| worker in left;
      assert workers - (left - {worker}) == (workers - left) + {worker};
      left := left - {worker};
      var ok := rt.CleanUp(worker);
      WipedSnoc(wipes, Wipe(worker, ok));
      Assoc(old(rt.trace), WipesTrace(wipes), [Cleanup(worker, ok)]);
      wipes := wipes + [Wipe(worker, ok)];
    }
  }

  lemma WipedSnoc(wipes: seq<Wipe>, x: Wipe)
    ensures Wiped(wipes + [x]) == Wiped(wipes) + {x.worker}
    ensures WipesTrace(wipes + [x]) == WipesTrace(wipes) + [Cleanup(x.worker, x.ok)]
  {
    assert x in [x];
  }

  /** Every removed or disabled allocation that was deployed is stopped, then removed ones lose their hash rows. */
  method ReconcileRemovedAndDisabledAllocations(rt: Runtime, tx: Tx, catalog: set<string>)
    returns (ok: bool, ghost p: Pass)
    modifies rt`trace, tx
    ensures rt.trace == old(rt.trace) + PassTrace(p)
    ensures IsPass(p, old(tx.table), catalog, ok)
    ensures ok ==> tx.table == Reconciled(old(tx.table))
  {
    var t := tx.table;
    var rows := Enumerate(set slot | slot in tx.table && IsStopped(tx.table[slot]));
    assert forall slot :: slot in rows <==> slot in Elems(rows);
    ghost var stops, checks, wipes;
    ok, stops := ReconcileRows(rt, tx, rows, catalog);
    p := Pass(stops, [], []);
    NoMore(StopsTrace(stops));
    if !ok {
      return;
    }
    assert ReconciledBy(t, rows) == Reconciled(t);
    ok, checks := CheckJobs(rt, JobsToCheck(t));
    p := Pass(stops, checks, []);
    NoMore(StopsTrace(stops) + ChecksTrace(checks));
    Assoc(old(rt.trace), StopsTrace(stops), ChecksTrace(checks));
    if !ok {
      return;
    }
    wipes := WipeWorkers(rt, WorkersToWipe(t, catalog));
    p := Pass(stops, checks, wipes);
    Assoc(old(rt.trace), StopsTrace(stops) + ChecksTrace(checks), WipesTrace(wipes));
  }

  lemma NoMore(tr: Trace)
    ensures ChecksTrace([]) == WipesTrace([]) == [] && tr + [] == tr
  {
  }

  /* ---- what a pass leaves in the trace ---- */

  lemma OneCall(call: Call, ok: bool)
    ensures var both := [Began(call), Ended(call, ok)];
      Begun(both) == Finished(both) == multiset{call} && Paced(both, 1)
  {
    var first, both := [Began(call)], [Began(call), Ended(call, ok)];
    assert first == [] + [Began(call)] && both == first + [Ended(call, ok)];
    Snoc([], Began(call));
    Snoc(first, Ended(call, ok));
    forall i | 0 <= i <= |both| ensures 0 <= InFlight(both[..i]) <= 1 {
      assert both[..i] == if i == 0 then [] else if i == 1 then first else both;
    }
  }

  lemma StopMakes(x: Stopping)
    ensures Begun(StopTrace(x)) == Finished(StopTrace(x)) == multiset{Call(x.slot.worker, Stop)} && Paced(StopTrace(x), 1)
  {
    var both := [Began(Call(x.slot.worker, Stop)), Ended(Call(x.slot.worker, Stop), x.stopped)];
    var rest := (if x.hooks.Some? then [Scripts(x.hooks.value)] else [])
      + (if x.cleaned.Some? then [Cleanup(x.slot.worker, x.cleaned.value)] else []);
    assert StopTrace(x) == both + rest;
    OneCall(Call(x.slot.worker, Stop), x.stopped);
    SilentIsPaced(rest, 1);
    PacedAdds(both, rest, 1);
    CountsAdd(both, rest);
  }

  function StopCalls(stops: seq<Stopping>): multiset<Call> {
    if stops == [] then multiset{}
    else StopCalls(stops[..|stops| - 1]) + multiset{Call(stops[|stops| - 1].slot.worker, Stop)}
  }

  lemma {:induction false} StopsMake(stops: seq<Stopping>)
    ensures Begun(StopsTrace(stops)) == Finished(StopsTrace(stops)) == StopCalls(stops)
    ensures Paced(StopsTrace(stops), 1)
  {
    if stops == [] {
      SilentIsPaced([], 1);
    } else {
      var n := |stops| - 1;
      StopsMake(stops[..n]);
      StopMakes(stops[n]);
      PacedAdds(StopsTrace(stops[..n]), StopTrace(stops[n]), 1);
      CountsAdd(StopsTrace(stops[..n]), StopTrace(stops[n]));
    }
  }

  /** A pass calls the stop of each allocation it stops, one after the other, and nothing else. */
  lemma PassMakes(p: Pass)
    ensures Begun(PassTrace(p)) == Finished(PassTrace(p)) == StopCalls(p.stops) && Paced(PassTrace(p), 1)
  {
    var rest := ChecksTrace(p.checks) + WipesTrace(p.wipes);
    Assoc(StopsTrace(p.stops), ChecksTrace(p.checks), WipesTrace(p.wipes));
    StopsMake(p.stops);
    SilentIsPaced(rest, 1);
    PacedAdds(StopsTrace(p.stops), rest, 1);
    CountsAdd(StopsTrace(p.stops), rest);
  }

  /** The hooks failed, or the stop did and its worker is in the catalog or its allocation only disabled. */
  predicate FailedStop(x: Stopping, t: Table, catalog: set<string>) {
    x.hooks == Some(false) || (!x.stopped && x.slot in t && (x.slot.worker in catalog || !t[x.slot].removed))
  }

  /**
    After a pass that went well: an allocation that lost its hash row and had been deployed was stopped, its hooks ran,
    and the stop succeeded unless its worker is off the catalog. And whenever such a stop or the hooks fail,
    or a job's health check, the pass does not go well.
   */
  lemma NoneIsDroppedRunning(p: Pass, t: Table, catalog: set<string>, ok: bool, slot: Slot)
    requires IsPass(p, t, catalog, ok)
    ensures ok && slot in t && t[slot].removed && WasDeployed(t[slot]) ==>
      exists x :: x in p.stops && x.slot == slot && x.hooks == Some(true) && (x.stopped || slot.worker !in catalog)
    ensures (exists x :: x in p.stops && FailedStop(x, t, catalog)) ==> !ok
    ensures (exists c :: c in p.checks && !c.ok) ==> !ok
  {
    if ok && slot in t && t[slot].removed && WasDeployed(t[slot]) {
      var x :| x in p.stops && x.slot == slot;
      assert Passed(x, t, catalog);
    }
    if exists x :: x in p.stops && FailedStop(x, t, catalog) {
      var x :| x in p.stops && FailedStop(x, t, catalog);
      assert !Passed(x, t, catalog);
    }
  }

  predicate Promoted(a: Allocation) {
    a.plan.Some? && a.plan.value.previousHash.Some? && a.plan.value.previousHash.value != ""
  }

  /**
    What a pass that went well has done for a removed or disabled allocation with something promoted: it was stopped,
    its hooks passed, and a removed one was cleaned up, where only a worker off the catalog may have failed. Its job was
    found healthy if it has an active allocation left, and a lost worker was wiped.
   */
  lemma PassDoesAll(p: Pass, t: Table, catalog: set<string>, slot: Slot)
    requires IsPass(p, t, catalog, true)
    requires slot in t && (t[slot].removed || t[slot].disabled) && Promoted(t[slot])
    ensures exists x ::
      && x in p.stops && x.slot == slot && x.hooks == Some(true)
      && (x.stopped || (t[slot].removed && slot.worker !in catalog))
      && (if t[slot].removed then x.cleaned.Some? && (x.cleaned.value || slot.worker !in catalog) else x.cleaned.None?)
    ensures (exists w :: Slot(w, slot.job) in t && Active(t[Slot(w, slot.job)])) ==> Check(slot.job, true) in p.checks
    ensures t[slot].removed && slot.worker !in catalog ==> exists y :: y in p.wipes && y.worker == slot.worker
  {
    var x :| x in p.stops && x.slot == slot;
    assert Passed(x, t, catalog) && IsStop(x, t, catalog);
    if exists w :: Slot(w, slot.job) in t && Active(t[Slot(w, slot.job)]) {
      var w :| Slot(w, slot.job) in t && Active(t[Slot(w, slot.job)]);
      assert w in Workers(t, slot.job, Active);
      assert slot.job in JobsToCheck(t);
    }
    if t[slot].removed && slot.worker !in catalog {
      assert slot.worker in WorkersToWipe(t, catalog);
    }
  }

  /** Nor does any pass, well or not, do more: it goes on after a stop only if it passed, and leaves the rest alone. */
  lemma PassDoesNoMore(p: Pass, t: Table, catalog: set<string>, ok: bool)
    requires IsPass(p, t, catalog, ok)
    ensures forall x :: x in p.stops ==>
      && x.slot in t && (t[x.slot].removed || t[x.slot].disabled) && Promoted(t[x.slot])
      && (x.hooks.Some? ==> x.stopped || (t[x.slot].removed && x.slot.worker !in catalog))
      && (x.cleaned.Some? ==> x.hooks == Some(true) && t[x.slot].removed)
    ensures forall i, k :: 0 <= i < k < |p.stops| ==> p.stops[i].slot != p.stops[k].slot
    ensures forall c :: c in p.checks ==> exists slot: Slot, w ::
      && slot in t && slot.job == c.job && (t[slot].removed || t[slot].disabled) && Promoted(t[slot])
      && Slot(w, c.job) in t && Active(t[Slot(w, c.job)])
    ensures forall y :: y in p.wipes ==> exists slot: Slot ::
      slot in t && slot.worker == y.worker && t[slot].removed && Promoted(t[slot]) && y.worker !in catalog
  {
    forall x | x in p.stops
      ensures x.slot in t && (t[x.slot].removed || t[x.slot].disabled) && Promoted(t[x.slot])
      ensures x.hooks.Some? ==> x.stopped || (t[x.slot].removed && x.slot.worker !in catalog)
      ensures x.cleaned.Some? ==> x.hooks == Some(true) && t[x.slot].removed
    {
      assert IsStop(x, t, catalog);
    }
    forall c | c in p.checks
      ensures exists slot: Slot, w ::
        && slot in t && slot.job == c.job && (t[slot].removed || t[slot].disabled) && Promoted(t[slot])
        && Slot(w, c.job) in t && Active(t[Slot(w, c.job)])
    {
      var slot :| slot in t && IsStopped(t[slot]) && WasDeployed(t[slot]) && Workers(t, slot.job, Active) != {}
        && slot.job == c.job;
      var w :| w in Workers(t, slot.job, Active);
      assert Slot(w, c.job) in t;
    }
    forall y | y in p.wipes
      ensures exists slot: Slot ::
        slot in t && slot.worker == y.worker && t[slot].removed && Promoted(t[slot]) && y.worker !in catalog
    {
      assert y.worker in Wiped(p.wipes);
      var slot :| slot in t && WasDeployed(t[slot]) && AssumeDead(slot, t[slot], catalog) && slot.worker == y.worker;
    }
  }
}
