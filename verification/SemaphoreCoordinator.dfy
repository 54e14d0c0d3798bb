/**
  The coordinator object, updated in place and proved against the protocol of module Semaphore. Each method
  that states the whole new `events` is one critical section of the source's mutex.
 */
module SemaphoreCoordinator {
  import opened Semaphore

  /**
    `remaining := waiters[:0]` and then appending while ranging over the same array: kept entries are written
    over entries already read, never over one still to be read.
   */
  method CompactInPlace(waiters: array<Waiter>, notify: Ticket) returns (kept: nat)
    modifies waiters
    ensures kept <= waiters.Length && waiters[..kept] == Without(old(waiters[..]), notify)
  {
    ghost var was := waiters[..];
    kept := 0;
    for i := 0 to waiters.Length
      invariant kept <= i
      invariant waiters[..kept] == Without(was[..i], notify)
      invariant waiters[i..] == was[i..]
    {
      assert was[..i + 1] == was[..i] + [was[i]];
      WithoutAppend(was[..i], [was[i]], notify);
      assert waiters[i] == waiters[i..][0] == was[i];
      assert waiters[i + 1..] == waiters[i..][1..];
      if waiters[i].notify != notify {
        waiters[kept] := waiters[i];
        kept := kept + 1;
        assert waiters[..kept] == waiters[..kept - 1] + [was[i]];
      }
    }
    assert was[..waiters.Length] == was;
  }

  lemma PrefixGrows(ws: seq<Waiter>, k: nat)
    requires k < |ws| && DistinctTickets(ws)
    ensures ws[k].notify !in Notifies(ws[..k]) && ws[k].notify in Notifies(ws)
    ensures Notifies(ws[..k + 1]) == Notifies(ws[..k]) + {ws[k].notify}
  {
  }

  /** One turn of the grant loop leaves what the loop computes unchanged. */
  lemma {:induction false} GrantStep(sem: Scope)
    requires |sem.holders| < sem.capacity && sem.waiters != []
    ensures var next := sem.(holders := sem.holders + {sem.waiters[0].allocationId}, waiters := sem.waiters[1..]);
      Granted(sem) == Granted(next) && GrantCount(sem) == 1 + GrantCount(next)
  {
    var next := sem.(holders := sem.holders + {sem.waiters[0].allocationId}, waiters := sem.waiters[1..]);
    var n := GrantCount(next);
    FirstGranted(sem, next, n);
    DropOneMore(sem.waiters, n);
  }

  lemma DropOneMore(ws: seq<Waiter>, n: nat)
    requires n < |ws|
    ensures ws[1..][n..] == ws[n + 1..]
  {
  }

  lemma {:induction false} GrantStops(sem: Scope)
    requires |sem.holders| >= sem.capacity || sem.waiters == []
    ensures Granted(sem) == sem && GrantCount(sem) == 0
  {
  }

  lemma {:induction false} RunThenStep(st: State, events: seq<Event>, ev: Event)
    ensures Run(st, events + [ev]) == Step(Run(st, events), ev).0
    decreases |events|
  {
    if events == [] {
      assert [ev][1..] == [];
    } else {
      assert (events + [ev])[1..] == events[1..] + [ev];
      RunThenStep(Step(st, events[0]).0, events[1..], ev);
    }
  }

  /** A queued ticket's channel is still open, so granting it may close it. */
  lemma {:induction false} WaitersAreOpen(events: seq<Event>, key: string)
    requires key in Run(INITIAL, events).scopes
    ensures var st := Run(INITIAL, events); var s := st.scopes[key];
      && DistinctTickets(s.scope.waiters)
      && Notifies(s.scope.waiters) !! st.closed
      && Notifies(s.granted) <= st.closed
  {
    RunKeepsInv(INITIAL, events);
    var s := Run(INITIAL, events).scopes[key];
    TicketsPartition(s);
    forall i, j | 0 <= i < j < |s.scope.waiters| ensures s.scope.waiters[i].notify != s.scope.waiters[j].notify {
      var all := s.granted + s.scope.waiters;
      assert all[|s.granted| + i] == s.scope.waiters[i] && all[|s.granted| + j] == s.scope.waiters[j];
    }
  }

  datatype StatusPayload = Unknown | Known(capacity: int, holders: set<string>, waiting: nat, available: int)

  class Coordinator {
    var semaphores: map<string, Scope>
    /** Channels are numbered as they are made; `closed` are the closed ones. */
    var issued: nat
    var closed: set<Ticket>
    /** The calls made so far. */
    ghost var events: seq<Event>

    /** The protocol state the calls so far lead to. */
    ghost function Model(): State
      reads this
    {
      Run(INITIAL, events)
    }

    /** The object is in the state the protocol prescribes for its calls. */
    ghost predicate Valid()
      reads this
    {
      var model := Model();
      && model.issued == issued && model.closed == closed && model.scopes.Keys == semaphores.Keys
      && forall key :: key in semaphores ==> semaphores[key] == model.scopes[key].scope
    }

    constructor ()
      ensures Valid() && events == []
    {
      semaphores := map[];
      issued := 0;
      closed := {};
      events := [];
    }

    /** Closing a closed channel panics. */
    method Close(notify: Ticket)
      requires notify !in closed
      modifies this`closed
      ensures closed == old(closed) + {notify}
    {
      closed := closed + {notify};
    }

    /** Acquire up to the point where the caller has its answer, or blocks on the channel `ticket`. */
    method Acquire(key: string, allocationId: string, requested: int) returns (reply: Reply, ticket: Ticket)
      requires Valid()
      modifies this
      ensures Valid() && events == old(events) + [Event.Acquire(key, allocationId, requested)]
      ensures reply == Step(old(Model()), Event.Acquire(key, allocationId, requested)).1
      ensures reply == Queued ==> ticket == old(issued)
    {
      ghost var ev := Event.Acquire(key, allocationId, requested);
      RunThenStep(INITIAL, events, ev);
      events := events + [ev];
      ticket := 0;
      var capacity := requested;
      if capacity < 1 {
        capacity := DEFAULT_CAPACITY;
      }
      if capacity > MAX_CAPACITY {
        return CapacityTooLarge, ticket;
      }
      reply, ticket := RegisterWait(key, allocationId, capacity);
    }

    method RegisterWait(key: string, allocationId: string, capacity: int) returns (reply: Reply, ticket: Ticket)
      modifies this`semaphores, this`issued
      ensures key in old(semaphores) && old(semaphores)[key].capacity != capacity ==>
        reply == CapacityMismatch && semaphores == old(semaphores) && issued == old(issued)
      ensures !(key in old(semaphores) && old(semaphores)[key].capacity != capacity) ==> (
        var sem := if key in old(semaphores) then old(semaphores)[key] else NewSession(capacity).scope;
        var r := Registered(NewSession(capacity).(scope := sem), allocationId, old(issued));
        && reply == r.1 && semaphores == old(semaphores)[key := r.0.scope]
        && issued == old(issued) + if reply == Queued then 1 else 0)
      ensures reply == Queued ==> ticket == old(issued)
    {
      ticket := 0;
      if key !in semaphores {
        semaphores := semaphores[key := Scope(capacity, {}, [])];
      } else if semaphores[key].capacity != capacity {
        return CapacityMismatch, ticket;
      }
      var sem := semaphores[key];
      if allocationId in sem.holders {
        return Held, ticket;
      }
      if |sem.holders| < sem.capacity {
        semaphores := semaphores[key := sem.(holders := sem.holders + {allocationId})];
        return Held, ticket;
      }
      ticket := issued;
      issued := issued + 1;
      semaphores := semaphores[key := sem.(waiters := sem.waiters + [Waiter(allocationId, ticket)])];
      return Queued, ticket;
    }

    /** What a timed-out acquire does: withdraw its own ticket if it is still queued. */
    method CancelWait(key: string, notify: Ticket)
      requires Valid()
      modifies this
      ensures Valid() && events == old(events) + [Timeout(key, notify)]
    {
      RunThenStep(INITIAL, events, Timeout(key, notify));
      events := events + [Timeout(key, notify)];
      if key !in semaphores {
        return;
      }
      var sem := semaphores[key];
      var backing := new Waiter[|sem.waiters|](i requires 0 <= i < |sem.waiters| => sem.waiters[i]);
      assert backing[..] == sem.waiters;
      var kept := CompactInPlace(backing, notify);
      semaphores := semaphores[key := sem.(waiters := backing[..kept])];
    }

    method Release(key: string, allocationId: string) returns (reply: Reply)
      requires Valid()
      modifies this
      ensures Valid() && events == old(events) + [Event.Release(key, allocationId)]
      ensures reply == Step(old(Model()), Event.Release(key, allocationId)).1
    {
      ghost var ev := Event.Release(key, allocationId);
      RunThenStep(INITIAL, events, ev);
      ghost var s := if key in semaphores then Model().scopes[key] else NewSession(1);
      if key in semaphores {
        WaitersAreOpen(events, key);
      }
      events := events + [ev];
      if key !in semaphores || allocationId !in semaphores[key].holders {
        return NotHeld;
      }
      var sem := semaphores[key];
      semaphores := semaphores[key := sem.(holders := sem.holders - {allocationId})];
      ghost var taken := GrantNextWaiters(key);
      NotifiesOfConcat(s.granted, s.scope.waiters[..taken]);
      return Released;
    }

    /** The grant loop. Its measure is the queue: a grant to an allocation that already holds adds no holder. */
    method GrantNextWaiters(key: string) returns (ghost taken: nat)
      requires key in semaphores
      requires DistinctTickets(semaphores[key].waiters) && Notifies(semaphores[key].waiters) !! closed
      modifies this`closed, this`semaphores
      ensures taken == GrantCount(old(semaphores)[key])
      ensures semaphores == old(semaphores)[key := Granted(old(semaphores)[key])]
      ensures closed == old(closed) + Notifies(old(semaphores)[key].waiters[..taken])
    {
      var sem := semaphores[key];
      ghost var ws, start := sem.waiters, sem;
      taken := 0;
      while |sem.holders| < sem.capacity && |sem.waiters| > 0
        invariant taken <= |ws| && sem.waiters == ws[taken..] && semaphores == old(semaphores)
        invariant Granted(sem) == Granted(start) && GrantCount(start) == taken + GrantCount(sem)
        invariant closed == old(closed) + Notifies(ws[..taken])
        decreases |sem.waiters|
      {
        PrefixGrows(ws, taken);
        GrantStep(sem);
        var next := sem.waiters[0];
        sem := sem.(waiters := sem.waiters[1..]);
        sem := sem.(holders := sem.holders + {next.allocationId});
        Close(next.notify);
        taken := taken + 1;
      }
      GrantStops(sem);
      semaphores := semaphores[key := sem];
    }

    /** What the status endpoint reports; the free slots it names are really free. */
    method Status(key: string) returns (status: StatusPayload)
      requires Valid()
      ensures key !in Model().scopes ==> status == Unknown
      ensures key in Model().scopes ==> (
        var s := Model().scopes[key].scope;
        && status == Known(s.capacity, s.holders, |s.waiters|, s.capacity - |s.holders|)
        && 0 <= status.available <= MAX_CAPACITY
        && (status.waiting > 0 ==> status.available == 0))
    {
      if key !in semaphores {
        return Unknown;
      }
      ReachableIsSafe(events, key);
      var sem := semaphores[key];
      return Known(sem.capacity, sem.holders, |sem.waiters|, sem.capacity - |sem.holders|);
    }
  }
}
