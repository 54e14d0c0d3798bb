/**
  The allocation-semaphore protocol, as atomic steps on scope -> session.

  A session is what the coordinator keeps for one scope (capacity, holders, queue) together with the
  history the fairness claims speak about. A ticket is the identity of a waiter's notification channel:
  channels are numbered in the order they are made.
 */
module Semaphore {
  import opened Seqs

  const DEFAULT_CAPACITY := 1
  const MAX_CAPACITY := 64

  type Ticket = nat

  datatype Waiter = Waiter(allocationId: string, notify: Ticket)

  datatype Scope = Scope(capacity: int, holders: set<string>, waiters: seq<Waiter>)

  /** A scope and its history: who ever queued, who gave up while queued, who was granted from the queue. */
  datatype Session = Session(
    scope: Scope, enqueued: seq<Waiter>, withdrawn: set<Ticket>, granted: seq<Waiter>)

  /** All scopes, how many channels were ever made, and which of them are closed. */
  datatype State = State(scopes: map<string, Session>, issued: nat, closed: set<Ticket>)

  const INITIAL := State(map[], 0, {})

  datatype Event =
    | Acquire(key: string, allocationId: string, capacity: int)
    | Timeout(key: string, notify: Ticket)
    | Release(key: string, allocationId: string)

  datatype Reply = CapacityTooLarge | CapacityMismatch | Held | Queued | TimedOut | Released | NotHeld

  ghost function Ids(ws: seq<Waiter>): set<string> {
    set w | w in ws :: w.allocationId
  }

  ghost function Notifies(ws: seq<Waiter>): set<Ticket> {
    set w | w in ws :: w.notify
  }

  /* ---- the steps ---- */

  /** How many waiters the grant loop takes off the front of the queue. */
  ghost function GrantCount(s: Scope): (n: nat)
    ensures n <= |s.waiters|
    decreases |s.waiters|
  {
    if |s.holders| < s.capacity && |s.waiters| > 0 then
      1 + GrantCount(s.(holders := s.holders + {s.waiters[0].allocationId}, waiters := s.waiters[1..]))
    else 0
  }

  ghost function Granted(s: Scope): Scope {
    var n := GrantCount(s);
    s.(holders := s.holders + Ids(s.waiters[..n]), waiters := s.waiters[n..])
  }

  ghost function Without(ws: seq<Waiter>, notify: Ticket): seq<Waiter> {
    if ws == [] then []
    else if ws[0].notify == notify then Without(ws[1..], notify)
    else [ws[0]] + Without(ws[1..], notify)
  }

  function EffectiveCapacity(capacity: int): int {
    if capacity < 1 then DEFAULT_CAPACITY else capacity
  }

  ghost function NewSession(capacity: int): Session {
    Session(Scope(capacity, {}, []), [], {}, [])
  }

  ghost function Registered(s: Session, id: string, notify: Ticket): (r: (Session, Reply)) {
    if id in s.scope.holders then (s, Held)
    else if |s.scope.holders| < s.scope.capacity then
      (s.(scope := s.scope.(holders := s.scope.holders + {id})), Held)
    else
      var w := Waiter(id, notify);
      (s.(scope := s.scope.(waiters := s.scope.waiters + [w]), enqueued := s.enqueued + [w]), Queued)
  }

  ghost function Cancelled(s: Session, notify: Ticket): Session {
    s.(scope := s.scope.(waiters := Without(s.scope.waiters, notify)),
       withdrawn := if notify in Notifies(s.scope.waiters) then s.withdrawn + {notify} else s.withdrawn)
  }

  ghost function ReleasedBy(s: Session, id: string): Session {
    var freed := s.scope.(holders := s.scope.holders - {id});
    s.(scope := Granted(freed), granted := s.granted + freed.waiters[..GrantCount(freed)])
  }

  ghost function Step(st: State, ev: Event): (r: (State, Reply)) {
    match ev
    case Acquire(key, id, requested) =>
      var capacity := EffectiveCapacity(requested);
      if capacity > MAX_CAPACITY then (st, CapacityTooLarge)
      else if key in st.scopes && st.scopes[key].scope.capacity != capacity then (st, CapacityMismatch)
      else
        var s := if key in st.scopes then st.scopes[key] else NewSession(capacity);
        var r := Registered(s, id, st.issued);
        (st.(scopes := st.scopes[key := r.0], issued := st.issued + if r.1 == Queued then 1 else 0), r.1)
    case Timeout(key, notify) =>
      (if key in st.scopes then st.(scopes := st.scopes[key := Cancelled(st.scopes[key], notify)]) else st, TimedOut)
    case Release(key, id) =>
      if key !in st.scopes || id !in st.scopes[key].scope.holders then (st, NotHeld)
      else
        var s := ReleasedBy(st.scopes[key], id);
        (st.(scopes := st.scopes[key := s], closed := st.closed + Notifies(s.granted)), Released)
  }

  ghost function Run(st: State, events: seq<Event>): State
    decreases |events|
  {
    if events == [] then st else Run(Step(st, events[0]).0, events[1..])
  }

  /* ---- the invariant ---- */

  /** The queue entries that did not give up, in the order they queued. */
  ghost function Surviving(enqueued: seq<Waiter>, withdrawn: set<Ticket>): seq<Waiter> {
    if enqueued == [] then []
    else if enqueued[0].notify in withdrawn then Surviving(enqueued[1..], withdrawn)
    else [enqueued[0]] + Surviving(enqueued[1..], withdrawn)
  }

  /** Slots are bounded, never oversubscribed, and nobody waits while one is free. */
  ghost predicate Safe(s: Scope) {
    && 1 <= s.capacity <= MAX_CAPACITY
    && |s.holders| <= s.capacity
    && (s.waiters != [] ==> |s.holders| == s.capacity)
  }

  ghost predicate DistinctTickets(ws: seq<Waiter>) {
    forall i, j :: 0 <= i < j < |ws| ==> ws[i].notify != ws[j].notify
  }

  /** First come, first served: survivors of the enqueue history are the grants and then the queue. */
  ghost predicate Fifo(s: Session) {
    && DistinctTickets(s.enqueued)
    && s.withdrawn <= Notifies(s.enqueued)
    && Surviving(s.enqueued, s.withdrawn) == s.granted + s.scope.waiters
  }

  ghost predicate Fair(s: Session, issued: nat) {
    && Safe(s.scope) && Fifo(s)
    && (forall t :: t in Notifies(s.enqueued) ==> t < issued)
  }

  /** Every scope is safe and fair, no ticket is in two scopes, and a channel is closed iff it was granted. */
  ghost predicate Inv(st: State) {
    && (forall key :: key in st.scopes ==> Fair(st.scopes[key], st.issued))
    && (forall k1, k2 :: k1 in st.scopes && k2 in st.scopes && k1 != k2 ==>
          Notifies(st.scopes[k1].enqueued) !! Notifies(st.scopes[k2].enqueued))
    && (forall key, t :: key in st.scopes && t in Notifies(st.scopes[key].enqueued) ==>
          (t in st.closed <==> t in Notifies(st.scopes[key].granted)))
    && (forall t :: t in st.closed ==> t < st.issued)
  }

  /* ---- the grant loop ---- */

  /** The grant loop takes the least number of waiters that fills the slots or empties the queue. */
  ghost predicate IsGrantCount(s: Scope, n: nat) {
    && n <= |s.waiters|
    && (n == |s.waiters| || |s.holders + Ids(s.waiters[..n])| >= s.capacity)
    && (forall m: nat :: m < n ==> |s.holders + Ids(s.waiters[..m])| < s.capacity)
  }

  lemma {:induction false} GrantFills(s: Scope)
    ensures GrantCount(s) == |s.waiters| || |s.holders + Ids(s.waiters[..GrantCount(s)])| >= s.capacity
    decreases |s.waiters|
  {
    if |s.holders| < s.capacity && |s.waiters| > 0 {
      var next := s.(holders := s.holders + {s.waiters[0].allocationId}, waiters := s.waiters[1..]);
      GrantFills(next);
      if GrantCount(s) < |s.waiters| {
        FirstGranted(s, next, GrantCount(next));
      }
    } else {
      assert s.holders + Ids(s.waiters[..0]) == s.holders;
    }
  }

  lemma {:induction false} GrantNeeds(s: Scope, m: nat)
    requires m < GrantCount(s)
    ensures |s.holders + Ids(s.waiters[..m])| < s.capacity
    decreases |s.waiters|
  {
    if m == 0 {
      assert s.holders + Ids(s.waiters[..0]) == s.holders;
    } else {
      var next := s.(holders := s.holders + {s.waiters[0].allocationId}, waiters := s.waiters[1..]);
      GrantNeeds(next, m - 1);
      FirstGranted(s, next, m - 1);
    }
  }

  lemma {:induction false} GrantTakesLeastPrefix(s: Scope)
    ensures IsGrantCount(s, GrantCount(s))
  {
    GrantFills(s);
    forall m: nat | m < GrantCount(s) ensures |s.holders + Ids(s.waiters[..m])| < s.capacity {
      GrantNeeds(s, m);
    }
  }

  /** Granting the first waiter shifts the queue by one and leaves the sets of holders as they were. */
  lemma FirstGranted(s: Scope, next: Scope, m: nat)
    requires s.waiters != [] && m < |s.waiters|
    requires next == s.(holders := s.holders + {s.waiters[0].allocationId}, waiters := s.waiters[1..])
    ensures next.holders + Ids(next.waiters[..m]) == s.holders + Ids(s.waiters[..m + 1])
  {
  }

  lemma {:induction false} GrantCountUnique(s: Scope, n: nat)
    requires IsGrantCount(s, n)
    ensures n == GrantCount(s)
  {
    GrantTakesLeastPrefix(s);
  }

  lemma IdsOfSnoc(ws: seq<Waiter>, w: Waiter)
    ensures Ids(ws + [w]) == Ids(ws) + {w.allocationId}
  {
  }

  /** Granting never oversubscribes, and stops only with full slots or an empty queue. */
  lemma {:induction false} GrantIsSafe(s: Scope)
    requires 1 <= s.capacity <= MAX_CAPACITY && |s.holders| <= s.capacity
    ensures Safe(Granted(s))
    ensures |s.holders| < s.capacity && s.waiters != [] ==> GrantCount(s) >= 1
  {
    GrantTakesLeastPrefix(s);
    HoldersAfter(s, GrantCount(s));
  }

  /** One more grant adds at most one holder. */
  lemma HoldersAfter(s: Scope, n: nat)
    requires n <= |s.waiters|
    ensures n == 0 ==> s.holders + Ids(s.waiters[..n]) == s.holders
    ensures n > 0 ==> |s.holders + Ids(s.waiters[..n])| <= |s.holders + Ids(s.waiters[..n - 1])| + 1
  {
    if n == 0 {
      assert Ids(s.waiters[..0]) == {};
    } else {
      assert s.waiters[..n] == s.waiters[..n - 1] + [s.waiters[n - 1]];
      IdsOfSnoc(s.waiters[..n - 1], s.waiters[n - 1]);
      var before := s.holders + Ids(s.waiters[..n - 1]);
      assert s.holders + Ids(s.waiters[..n]) == before + {s.waiters[n - 1].allocationId};
    }
  }

  /* ---- the history ---- */

  lemma {:induction false} SurvivingAppend(ws: seq<Waiter>, w: Waiter, out: set<Ticket>)
    requires w.notify !in out
    ensures Surviving(ws + [w], out) == Surviving(ws, out) + [w]
  {
    if ws == [] {
      assert ws + [w] == [w];
    } else {
      assert (ws + [w])[1..] == ws[1..] + [w];
      SurvivingAppend(ws[1..], w, out);
    }
  }

  lemma {:induction false} SurvivingWithdraw(ws: seq<Waiter>, out: set<Ticket>, notify: Ticket)
    ensures Surviving(ws, out + {notify}) == Without(Surviving(ws, out), notify)
  {
    if ws != [] {
      SurvivingWithdraw(ws[1..], out, notify);
      var tail := Surviving(ws[1..], out);
      if ws[0].notify !in out {
        assert ([ws[0]] + tail)[1..] == tail;
      }
    }
  }

  lemma {:induction false} WithoutAppend(a: seq<Waiter>, b: seq<Waiter>, notify: Ticket)
    ensures Without(a + b, notify) == Without(a, notify) + Without(b, notify)
  {
    if a == [] {
      assert a + b == b;
    } else {
      assert (a + b)[1..] == a[1..] + b;
      WithoutAppend(a[1..], b, notify);
    }
  }

  lemma {:induction false} WithoutAbsent(ws: seq<Waiter>, notify: Ticket)
    requires forall w :: w in ws ==> w.notify != notify
    ensures Without(ws, notify) == ws
  {
    if ws != [] {
      WithoutAbsent(ws[1..], notify);
    }
  }

  lemma {:induction false} SurvivingIsSublist(ws: seq<Waiter>, out: set<Ticket>)
    requires DistinctTickets(ws)
    ensures forall w :: w in Surviving(ws, out) ==> w in ws && w.notify !in out
    ensures forall w :: w in ws && w.notify !in out ==> w in Surviving(ws, out)
    ensures DistinctTickets(Surviving(ws, out))
  {
    if ws != [] {
      SurvivingIsSublist(ws[1..], out);
      assert ws == [ws[0]] + ws[1..];
      var rest := ws[1..];
      forall w | w in Surviving(rest, out) ensures w.notify != ws[0].notify {
        assert w in rest;
        var i :| 0 <= i < |rest| && rest[i] == w;
        assert ws[i + 1] == w;
      }
    }
  }

  /** In a fair session the grants and the queue together hold distinct tickets, none of them withdrawn. */
  lemma TicketsPartition(s: Session)
    requires Fifo(s)
    ensures DistinctTickets(s.granted + s.scope.waiters)
    ensures Notifies(s.granted) !! Notifies(s.scope.waiters)
    ensures Notifies(s.enqueued) == Notifies(s.granted) + Notifies(s.scope.waiters) + s.withdrawn
    ensures s.withdrawn !! Notifies(s.granted) + Notifies(s.scope.waiters)
  {
    SurvivingIsSublist(s.enqueued, s.withdrawn);
    var all := s.granted + s.scope.waiters;
    forall i, j | 0 <= i < |s.granted| && 0 <= j < |s.scope.waiters|
      ensures s.granted[i].notify != s.scope.waiters[j].notify
    {
      assert all[i] == s.granted[i] && all[|s.granted| + j] == s.scope.waiters[j];
    }
    assert forall w :: w in all <==> w in s.granted || w in s.scope.waiters;
    forall t | t in Notifies(s.enqueued) ensures t in Notifies(s.granted) + Notifies(s.scope.waiters) + s.withdrawn {
      var w :| w in s.enqueued && w.notify == t;
      if t !in s.withdrawn {
        assert w in all;
      }
    }
  }

  /* ---- every step keeps the invariant ---- */

  lemma NotifiesOfConcat(a: seq<Waiter>, b: seq<Waiter>)
    ensures Notifies(a + b) == Notifies(a) + Notifies(b)
  {
  }

  lemma RegisterFair(s: Session, id: string, issued: nat)
    requires Fair(s, issued)
    ensures var r := Registered(s, id, issued);
      Fair(r.0, issued + if r.1 == Queued then 1 else 0)
  {
    var r := Registered(s, id, issued);
    if r.1 == Queued {
      var w := Waiter(id, issued);
      NotifiesOfConcat(s.enqueued, [w]);
      assert forall t :: t in s.withdrawn ==> t in Notifies(s.enqueued);
      SurvivingAppend(s.enqueued, w, s.withdrawn);
      assert s.granted + (s.scope.waiters + [w]) == s.granted + s.scope.waiters + [w];
      forall i | 0 <= i < |s.enqueued| ensures s.enqueued[i].notify != issued {
        assert s.enqueued[i].notify in Notifies(s.enqueued);
      }
    }
  }

  lemma RegisterEnqueues(s: Session, id: string, issued: nat)
    ensures var r := Registered(s, id, issued);
      && r.0.granted == s.granted
      && Notifies(r.0.enqueued) == Notifies(s.enqueued) + if r.1 == Queued then {issued} else {}
  {
    NotifiesOfConcat(s.enqueued, [Waiter(id, issued)]);
  }

  lemma RegisterKeepsFair(s: Session, id: string, issued: nat)
    requires Fair(s, issued)
    ensures var r := Registered(s, id, issued);
      && Fair(r.0, issued + if r.1 == Queued then 1 else 0)
      && r.0.granted == s.granted
      && Notifies(r.0.enqueued) == Notifies(s.enqueued) + if r.1 == Queued then {issued} else {}
  {
    RegisterFair(s, id, issued);
    RegisterEnqueues(s, id, issued);
  }

  lemma CancelKeepsFair(s: Session, notify: Ticket, issued: nat)
    requires Fair(s, issued)
    ensures Fair(Cancelled(s, notify), issued)
  {
    TicketsPartition(s);
    if notify in Notifies(s.scope.waiters) {
      SurvivingWithdraw(s.enqueued, s.withdrawn, notify);
      WithoutAppend(s.granted, s.scope.waiters, notify);
      forall w | w in s.granted ensures w.notify != notify {
        assert w.notify in Notifies(s.granted);
      }
      WithoutAbsent(s.granted, notify);
    } else {
      forall w | w in s.scope.waiters ensures w.notify != notify {
        assert w.notify in Notifies(s.scope.waiters);
      }
      WithoutAbsent(s.scope.waiters, notify);
    }
    if s.scope.waiters == [] {
      assert Without(s.scope.waiters, notify) == [];
    }
  }

  lemma ReleaseKeepsFair(s: Session, id: string, issued: nat)
    requires Fair(s, issued) && id in s.scope.holders
    ensures var r := ReleasedBy(s, id);
      Fair(r, issued) && Notifies(s.granted) <= Notifies(r.granted) <= Notifies(s.enqueued)
  {
    var freed := s.scope.(holders := s.scope.holders - {id});
    assert s.scope.holders == freed.holders + {id};
    GrantIsSafe(freed);
    var n := GrantCount(freed);
    MoveAcross(s.granted, freed.waiters, n);
    TicketsPartition(ReleasedBy(s, id));
    NotifiesOfConcat(s.granted, freed.waiters[..n]);
  }

  lemma MoveAcross(granted: seq<Waiter>, waiters: seq<Waiter>, n: nat)
    requires n <= |waiters|
    ensures granted + waiters == (granted + waiters[..n]) + waiters[n..]
  {
  }

  /** Replacing one scope's session keeps the invariant if the session is fair and its channels agree. */
  lemma UpdateKeepsInv(st: State, key: string, s: Session, issued: nat, closed: set<Ticket>)
    requires Inv(st) && Fair(s, issued)
    requires st.issued <= issued && (forall t :: t in closed ==> t < issued)
    requires forall t :: t in Notifies(s.enqueued) ==>
      t >= st.issued || (key in st.scopes && t in Notifies(st.scopes[key].enqueued))
    requires forall t :: t in Notifies(s.enqueued) ==> (t in closed <==> t in Notifies(s.granted))
    requires forall t :: t !in Notifies(s.enqueued) && t < st.issued ==> (t in closed <==> t in st.closed)
    ensures Inv(State(st.scopes[key := s], issued, closed))
  {
    forall k | k in st.scopes && k != key
      ensures Notifies(st.scopes[k].enqueued) !! Notifies(s.enqueued)
    {
    }
  }

  lemma StepKeepsInv(st: State, ev: Event)
    requires Inv(st)
    ensures Inv(Step(st, ev).0)
  {
    var next := Step(st, ev).0;
    if ev.Acquire? {
      if Step(st, ev).1 in {Held, Queued} {
        var s := if ev.key in st.scopes then st.scopes[ev.key] else NewSession(EffectiveCapacity(ev.capacity));
        RegisterKeepsFair(s, ev.allocationId, st.issued);
        TicketsPartition(next.scopes[ev.key]);
        UpdateKeepsInv(st, ev.key, next.scopes[ev.key], next.issued, next.closed);
      }
    } else if ev.key in st.scopes {
      var s := st.scopes[ev.key];
      if ev.Timeout? {
        CancelKeepsFair(s, ev.notify, st.issued);
        UpdateKeepsInv(st, ev.key, next.scopes[ev.key], next.issued, next.closed);
      } else if ev.allocationId in s.scope.holders {
        ReleaseKeepsFair(s, ev.allocationId, st.issued);
        UpdateKeepsInv(st, ev.key, next.scopes[ev.key], next.issued, next.closed);
      }
    }
  }

  /** Safety and first-come-first-served hold after every run, whatever the interleaving. */
  lemma {:induction false} RunKeepsInv(st: State, events: seq<Event>)
    requires Inv(st)
    ensures Inv(Run(st, events))
    decreases |events|
  {
    if events != [] {
      StepKeepsInv(st, events[0]);
      RunKeepsInv(Step(st, events[0]).0, events[1..]);
    }
  }

  /** Slots are never oversubscribed, and a queue means every slot is taken. */
  lemma {:induction false} ReachableIsSafe(events: seq<Event>, key: string)
    requires key in Run(INITIAL, events).scopes
    ensures var s := Run(INITIAL, events).scopes[key].scope;
      && 1 <= s.capacity <= MAX_CAPACITY
      && |s.holders| <= s.capacity
      && (s.waiters != [] ==> |s.holders| == s.capacity)
  {
    RunKeepsInv(INITIAL, events);
  }

  /** Those who queued and did not give up are exactly the granted ones followed by the queue, in order. */
  lemma {:induction false} ReachableIsFifo(events: seq<Event>, key: string)
    requires key in Run(INITIAL, events).scopes
    ensures var s := Run(INITIAL, events).scopes[key];
      && Surviving(s.enqueued, s.withdrawn) == s.granted + s.scope.waiters
      && DistinctTickets(s.granted + s.scope.waiters)
  {
    RunKeepsInv(INITIAL, events);
    TicketsPartition(Run(INITIAL, events).scopes[key]);
  }

  /** A waiter's channel is closed exactly when its ticket was granted, in every reachable state. */
  lemma {:induction false} ReachableClosedIffGranted(events: seq<Event>, key: string, notify: Ticket)
    requires var st := Run(INITIAL, events); key in st.scopes && notify in Notifies(st.scopes[key].enqueued)
    ensures var st := Run(INITIAL, events);
      notify in st.closed <==> notify in Notifies(st.scopes[key].granted)
  {
    RunKeepsInv(INITIAL, events);
  }

  lemma OtherScopesUntouched(st: State, ev: Event, other: string)
    requires other != ev.key
    ensures var next := Step(st, ev).0;
      && (other in next.scopes <==> other in st.scopes)
      && (other in st.scopes ==> next.scopes[other] == st.scopes[other])
  {
  }

  /** A slot handed out at once to a non-holder means nobody was waiting for it. */
  lemma {:induction false} ImmediateAcquireOvertakesNobody(events: seq<Event>, ev: Event)
    requires var st := Run(INITIAL, events);
      && ev.Acquire? && Step(st, ev).1 == Held
      && ev.key in st.scopes && ev.allocationId !in st.scopes[ev.key].scope.holders
    ensures Run(INITIAL, events).scopes[ev.key].scope.waiters == []
  {
    RunKeepsInv(INITIAL, events);
  }

  /* ---- bounded overtaking ---- */

  ghost predicate Waiting(st: State, key: string, notify: Ticket) {
    key in st.scopes && notify in Notifies(st.scopes[key].scope.waiters)
  }

  /** How many tickets are ahead of this one. */
  ghost function Ahead(ws: seq<Waiter>, notify: Ticket): nat {
    if ws == [] || ws[0].notify == notify then 0 else 1 + Ahead(ws[1..], notify)
  }

  ghost function SuccessfulReleases(st: State, events: seq<Event>, key: string): nat
    decreases |events|
  {
    if events == [] then 0
    else
      var r := Step(st, events[0]);
      (if events[0].key == key && r.1 == Released then 1 else 0) + SuccessfulReleases(r.0, events[1..], key)
  }

  lemma {:induction false} AheadAppend(ws: seq<Waiter>, w: Waiter, notify: Ticket)
    requires notify in Notifies(ws)
    ensures Ahead(ws + [w], notify) == Ahead(ws, notify) && notify in Notifies(ws + [w])
  {
    assert ws != [];
    assert (ws + [w])[0] == ws[0];
    if ws[0].notify == notify {
      assert ws[0] in ws + [w];
    } else {
      assert (ws + [w])[1..] == ws[1..] + [w];
      assert ws == [ws[0]] + ws[1..];
      AheadAppend(ws[1..], w, notify);
      var x :| x in ws[1..] + [w] && x.notify == notify;
      assert x in ws + [w];
    }
  }

  lemma {:induction false} AheadWithout(ws: seq<Waiter>, gone: Ticket, notify: Ticket)
    requires notify in Notifies(ws) && gone != notify
    ensures Ahead(Without(ws, gone), notify) <= Ahead(ws, notify) && notify in Notifies(Without(ws, gone))
  {
    assert ws != [];
    assert ws == [ws[0]] + ws[1..];
    var rest := Without(ws[1..], gone);
    if ws[0].notify == notify {
      assert Without(ws, gone) == [ws[0]] + rest;
      assert ws[0] in Without(ws, gone);
    } else {
      AheadWithout(ws[1..], gone, notify);
      if ws[0].notify != gone {
        assert ([ws[0]] + rest)[1..] == rest;
        var x :| x in rest && x.notify == notify;
        assert x in [ws[0]] + rest;
      }
    }
  }

  lemma {:induction false} AheadDrop(ws: seq<Waiter>, n: nat, notify: Ticket)
    requires notify in Notifies(ws) && n <= |ws|
    ensures n <= Ahead(ws, notify) ==>
      Ahead(ws[n..], notify) == Ahead(ws, notify) - n && notify in Notifies(ws[n..])
    ensures n > Ahead(ws, notify) ==> notify in Notifies(ws[..n])
  {
    if n == 0 {
      assert ws[0..] == ws;
    } else if ws[0].notify == notify {
      assert ws[..n][0] == ws[0];
    } else {
      assert ws == [ws[0]] + ws[1..];
      AheadDrop(ws[1..], n - 1, notify);
      assert ws[1..][n - 1..] == ws[n..];
      if n > Ahead(ws, notify) {
        var x :| x in ws[1..][..n - 1] && x.notify == notify;
        assert ws[..n] == [ws[0]] + ws[1..][..n - 1];
        assert x in ws[..n];
      }
    }
  }

  /** What a release does to a waiter: it is granted, or stays with fewer ahead of it. */
  lemma {:induction false} OvertakingRelease(scope: Scope, granted: seq<Waiter>, id: string, notify: Ticket)
    requires 1 <= scope.capacity <= MAX_CAPACITY && |scope.holders| <= scope.capacity && id in scope.holders
    requires scope.waiters != [] ==> |scope.holders| == scope.capacity
    requires notify in Notifies(scope.waiters)
    ensures var freed := scope.(holders := scope.holders - {id});
      var n := GrantCount(freed);
      && n <= |scope.waiters|
      && (|| notify in Notifies(granted + scope.waiters[..n])
          || (notify in Notifies(scope.waiters[n..]) && Ahead(scope.waiters[n..], notify) < Ahead(scope.waiters, notify)))
  {
    var freed := scope.(holders := scope.holders - {id});
    assert scope.holders == freed.holders + {id};
    GrantIsSafe(freed);
    GrantTakesLeastPrefix(freed);
    var n := GrantCount(freed);
    AheadDrop(scope.waiters, n, notify);
    if notify in Notifies(scope.waiters[..n]) {
      var x :| x in scope.waiters[..n] && x.notify == notify;
      assert x in granted + scope.waiters[..n];
    }
  }

  /**
    One step of anything but this ticket's own timeout: the ticket is granted or stays queued, nobody is
    put ahead of it, and a successful release on its scope takes at least one ticket from ahead of it.
   */
  lemma {:induction false} OvertakingStep(st: State, ev: Event, key: string, notify: Ticket)
    requires Inv(st) && Waiting(st, key, notify) && ev != Timeout(key, notify)
    ensures var r := Step(st, ev); var s := st.scopes[key].scope.waiters;
      && key in r.0.scopes
      && (notify in Notifies(r.0.scopes[key].granted)
          || (&& Waiting(r.0, key, notify)
              && Ahead(r.0.scopes[key].scope.waiters, notify) <= Ahead(s, notify)
              && (ev.key == key && r.1 == Released ==> Ahead(r.0.scopes[key].scope.waiters, notify) < Ahead(s, notify))))
  {
    var ws := st.scopes[key].scope.waiters;
    if ev.key == key {
      match ev
      case Acquire(_, id, _) =>
        AheadAppend(ws, Waiter(id, st.issued), notify);
      case Timeout(_, gone) =>
        AheadWithout(ws, gone, notify);
      case Release(_, id) =>
        if id in st.scopes[key].scope.holders {
          OvertakingRelease(st.scopes[key].scope, st.scopes[key].granted, id, notify);
        }
    }
  }

  lemma {:induction false} GrantedStaysGranted(st: State, events: seq<Event>, key: string, notify: Ticket)
    requires key in st.scopes && notify in Notifies(st.scopes[key].granted)
    ensures key in Run(st, events).scopes && notify in Notifies(Run(st, events).scopes[key].granted)
    decreases |events|
  {
    if events != [] {
      var next := Step(st, events[0]).0;
      assert notify in Notifies(next.scopes[key].granted) by {
        var x :| x in st.scopes[key].granted && x.notify == notify;
        assert x in next.scopes[key].granted;
      }
      GrantedStaysGranted(next, events[1..], key, notify);
    }
  }

  /**
    Bounded overtaking: a ticket with p others ahead of it is granted within p + 1 successful releases of its
    scope, unless it times out first, however many times one allocation is queued.
   */
  lemma {:induction false} BoundedOvertaking(st: State, events: seq<Event>, key: string, notify: Ticket)
    requires Inv(st) && Waiting(st, key, notify)
    requires Timeout(key, notify) !in events
    requires SuccessfulReleases(st, events, key) > Ahead(st.scopes[key].scope.waiters, notify)
    ensures key in Run(st, events).scopes && notify in Notifies(Run(st, events).scopes[key].granted)
    decreases |events|
  {
    if events != [] {
      var next := Step(st, events[0]).0;
      StepKeepsInv(st, events[0]);
      OvertakingStep(st, events[0], key, notify);
      if notify in Notifies(next.scopes[key].granted) {
        GrantedStaysGranted(next, events[1..], key, notify);
      } else {
        BoundedOvertaking(next, events[1..], key, notify);
      }
    }
  }

  /* ---- a timeout that comes too late ---- */

  /** Some ticket of the allocation was granted that was not granted before. */
  ghost predicate GrantedSince(s: Session, before: set<Ticket>, id: string) {
    exists w :: w in s.granted && w.allocationId == id && w.notify !in before
  }

  /** The allocation holds a slot exactly by a new grant, and until then its ticket waits. */
  ghost predicate HoldsByGrant(st: State, key: string, before: set<Ticket>, w: Waiter) {
    && key in st.scopes
    && before <= Notifies(st.scopes[key].granted)
    && (w.allocationId in st.scopes[key].scope.holders <==> GrantedSince(st.scopes[key], before, w.allocationId))
    && (!GrantedSince(st.scopes[key], before, w.allocationId) ==> w in st.scopes[key].scope.waiters)
  }

  lemma {:induction false} WithoutKeeps(ws: seq<Waiter>, gone: Ticket, w: Waiter)
    requires w in ws && w.notify != gone
    ensures w in Without(ws, gone)
  {
    assert ws == [ws[0]] + ws[1..];
    if w in ws[1..] {
      WithoutKeeps(ws[1..], gone, w);
    }
  }

  lemma ReleaseGrants(s: Session, issued: nat, before: set<Ticket>, id: string, w: Waiter)
    requires Fair(s, issued) && id in s.scope.holders && id != w.allocationId && before <= Notifies(s.granted)
    requires w.allocationId in s.scope.holders <==> GrantedSince(s, before, w.allocationId)
    requires !GrantedSince(s, before, w.allocationId) ==> w in s.scope.waiters
    ensures var r := ReleasedBy(s, id);
      && before <= Notifies(r.granted)
      && (w.allocationId in r.scope.holders <==> GrantedSince(r, before, w.allocationId))
      && (!GrantedSince(r, before, w.allocationId) ==> w in r.scope.waiters)
  {
    var freed := s.scope.(holders := s.scope.holders - {id});
    var n := GrantCount(freed);
    var now, later := s.scope.waiters[..n], s.scope.waiters[n..];
    var r := ReleasedBy(s, id);
    assert s.scope.waiters == now + later;
    TicketsPartition(s);
    NotifiesOfConcat(s.granted, now);
    forall x | x in now ensures x in r.granted && x.notify !in before {
      assert x in s.scope.waiters && x.notify in Notifies(s.scope.waiters);
    }
    if GrantedSince(s, before, w.allocationId) {
      var x :| x in s.granted && x.allocationId == w.allocationId && x.notify !in before;
      assert x in r.granted;
    } else if w.allocationId in Ids(now) {
      var x :| x in now && x.allocationId == w.allocationId;
      assert x in r.granted && x.notify !in before;
    } else {
      assert w !in now;
      forall x | x in r.granted && x.allocationId == w.allocationId ensures x.notify in before {
        assert x in s.granted;
      }
    }
  }

  lemma {:induction false} HoldsByGrantStep(st: State, ev: Event, key: string, before: set<Ticket>, w: Waiter)
    requires Inv(st) && HoldsByGrant(st, key, before, w)
    requires ev != Release(key, w.allocationId) && ev != Timeout(key, w.notify)
    ensures HoldsByGrant(Step(st, ev).0, key, before, w)
  {
    var s, next := st.scopes[key], Step(st, ev).0;
    if ev.key == key {
      if ev.Release? && ev.allocationId in s.scope.holders {
        ReleaseGrants(s, st.issued, before, ev.allocationId, w);
      } else if ev.Timeout? {
        if w in s.scope.waiters {
          WithoutKeeps(s.scope.waiters, ev.notify, w);
        }
        assert next.scopes[key].granted == s.granted;
        assert GrantedSince(next.scopes[key], before, w.allocationId) <==> GrantedSince(s, before, w.allocationId);
      } else if ev.Acquire? {
        assert next.scopes[key].granted == s.granted;
        assert GrantedSince(next.scopes[key], before, w.allocationId) <==> GrantedSince(s, before, w.allocationId);
      }
    }
  }

  lemma {:induction false} HoldsByGrantRun(st: State, events: seq<Event>, key: string, before: set<Ticket>, w: Waiter)
    requires Inv(st) && HoldsByGrant(st, key, before, w)
    requires Release(key, w.allocationId) !in events && Timeout(key, w.notify) !in events
    ensures Inv(Run(st, events)) && HoldsByGrant(Run(st, events), key, before, w)
    decreases |events|
  {
    if events != [] {
      StepKeepsInv(st, events[0]);
      HoldsByGrantStep(st, events[0], key, before, w);
      assert events == [events[0]] + events[1..];
      HoldsByGrantRun(Step(st, events[0]).0, events[1..], key, before, w);
    }
  }

  /** After a timeout: the slot is held exactly by a new grant, and surely if the ticket's own channel was closed. */
  ghost predicate HeldIff(end: State, after: State, key: string, before: set<Ticket>, w: Waiter)
    requires key in end.scopes
  {
    && key in after.scopes
    && (var held := w.allocationId in after.scopes[key].scope.holders;
        && (held <==> GrantedSince(end.scopes[key], before, w.allocationId))
        && (w.notify in end.closed ==> held)
        && (held && OnlyTicket(end.scopes[key], before, w) ==> w.notify in end.closed))
  }

  ghost predicate OnlyTicket(s: Session, before: set<Ticket>, w: Waiter) {
    forall x :: x in s.granted && x.allocationId == w.allocationId ==> x.notify in before || x == w
  }

  /**
    A caller told that it timed out may hold a slot all the same: exactly if one of its tickets was granted while it
    waited, which for a caller with one ticket means that the channel it no longer looks at was closed.
   */
  lemma {:induction false} TimedOutHoldsIff(st: State, events: seq<Event>, key: string, w: Waiter)
    requires Inv(st) && key in st.scopes && w in st.scopes[key].scope.waiters
    requires w.allocationId !in st.scopes[key].scope.holders
    requires Release(key, w.allocationId) !in events && Timeout(key, w.notify) !in events
    ensures var end := Run(st, events);
      && key in end.scopes && Step(end, Timeout(key, w.notify)).1 == TimedOut
      && HeldIff(end, Step(end, Timeout(key, w.notify)).0, key, Notifies(st.scopes[key].granted), w)
  {
    var before := Notifies(st.scopes[key].granted);
    TicketsPartition(st.scopes[key]);
    forall x | x in st.scopes[key].granted ensures x.notify in before {
    }
    HoldsByGrantRun(st, events, key, before, w);
    var end := Run(st, events);
    var s := end.scopes[key];
    TicketsPartition(s);
    if GrantedSince(s, before, w.allocationId) {
      var x :| x in s.granted && x.allocationId == w.allocationId && x.notify !in before;
      assert x.notify in Notifies(s.granted);
    } else {
      assert w.notify in Notifies(s.scope.waiters);
    }
  }

  /* ---- what the replies mean ---- */

  /** Exactly when an acquire gets which reply, and what it leaves of its scope. */
  lemma {:induction false} AcquireReplies(st: State, key: string, id: string, requested: int)
    ensures var capacity := if requested < 1 then 1 else requested; var r := Step(st, Acquire(key, id, requested));
      var known := key in st.scopes;
      var holders := if known then st.scopes[key].scope.holders else {};
      var waiters := if known then st.scopes[key].scope.waiters else [];
      && (r.1 == CapacityTooLarge <==> capacity > 64)
      && (r.1 == CapacityMismatch <==> capacity <= 64 && known && st.scopes[key].scope.capacity != capacity)
      && (r.1 in {CapacityTooLarge, CapacityMismatch} ==> r.0 == st)
      && (r.1 !in {CapacityTooLarge, CapacityMismatch} ==>
            && (r.1 == Held <==> id in holders || |holders| < capacity)
            && (r.1 == Queued <==> id !in holders && |holders| >= capacity)
            && key in r.0.scopes && r.0.scopes[key].scope.capacity == capacity
            && (r.1 == Held ==>
                  r.0.scopes[key].scope.holders == holders + {id} && r.0.scopes[key].scope.waiters == waiters
                  && r.0.issued == st.issued)
            && (r.1 == Queued ==>
                  && r.0.scopes[key].scope.holders == holders && r.0.issued == st.issued + 1
                  && r.0.scopes[key].scope.waiters == waiters + [Waiter(id, st.issued)]))
  {
  }

  /** A timeout takes its ticket out of the queue and nothing else, the other waiters in their order. */
  lemma {:induction false} TimeoutLeaves(st: State, key: string, notify: Ticket)
    requires key in st.scopes
    ensures var s, t := st.scopes[key].scope, Step(st, Timeout(key, notify)).0.scopes[key].scope;
      && t.holders == s.holders && t.capacity == s.capacity
      && (forall w :: w in t.waiters <==> w in s.waiters && w.notify != notify)
      && Sublist(t.waiters, s.waiters) && (notify !in Notifies(s.waiters) ==> t.waiters == s.waiters)
  {
    var s := st.scopes[key].scope;
    WithoutSpec(s.waiters, notify);
    if notify !in Notifies(s.waiters) {
      forall w | w in s.waiters ensures w.notify != notify {
        assert w.notify in Notifies(s.waiters);
      }
      WithoutAbsent(s.waiters, notify);
    }
  }

  lemma {:induction false} WithoutSpec(ws: seq<Waiter>, notify: Ticket)
    ensures forall w :: w in Without(ws, notify) <==> w in ws && w.notify != notify
    ensures Sublist(Without(ws, notify), ws)
    decreases |ws|
  {
    if ws != [] {
      var front, last := ws[..|ws| - 1], ws[|ws| - 1];
      assert ws == front + [last];
      WithoutSpec(front, notify);
      WithoutAppend(front, [last], notify);
      assert Without([last], notify) == if last.notify == notify then [] else [last];
      if last.notify == notify {
        assert Without(front, notify) + [] == Without(front, notify);
        SublistSkips(Without(front, notify), front, last);
      } else {
        SublistTakes(Without(front, notify), front, last);
      }
    }
  }

  /** Who was told on a channel that a ticket is queued: the ticket's scope and allocation. */
  datatype Owner = Owner(key: string, allocationId: string)

  /** What callers know: whose each ticket is, by the replies so far. */
  ghost function Owners(st: State, events: seq<Event>): map<Ticket, Owner>
    decreases |events|
  {
    if events == [] then map[]
    else
      var before := Run(st, events[..|events| - 1]);
      var ev := events[|events| - 1];
      var owners := Owners(st, events[..|events| - 1]);
      if Step(before, ev).1 == Queued then owners[before.issued := Owner(ev.key, ev.allocationId)] else owners
  }

  /**
    The allocations that were told they hold a slot of a scope, and did not release it since: by the reply Held, or by
    their channel being closed.
   */
  ghost function ToldHolding(st: State, events: seq<Event>, key: string): set<string>
    decreases |events|
  {
    if events == [] then {}
    else
      var before := Run(st, events[..|events| - 1]);
      var ev := events[|events| - 1];
      var (after, reply) := Step(before, ev);
      var told := ToldHolding(st, events[..|events| - 1], key);
      if reply == Held && ev.key == key then told + {ev.allocationId}
      else if reply == Released && ev.key == key then
        (told - {ev.allocationId}) + Woken(before, after, Owners(st, events[..|events| - 1]), key)
      else told
  }

  /** The allocations waiting for a scope whose channel was closed between two states. */
  ghost function Woken(before: State, after: State, owners: map<Ticket, Owner>, key: string): set<string> {
    set t | t in owners && t in after.closed && t !in before.closed && owners[t].key == key :: owners[t].allocationId
  }

  lemma {:induction false} RunSnoc(st: State, events: seq<Event>)
    requires events != []
    ensures Run(st, events) == Step(Run(st, events[..|events| - 1]), events[|events| - 1]).0
    decreases |events|
  {
    if |events| > 1 {
      var rest := events[1..];
      RunSnoc(Step(st, events[0]).0, rest);
      assert rest[..|rest| - 1] == events[..|events| - 1][1..];
    } else {
      assert events[..0] == [];
    }
  }

  /** The queue and the history agree with what callers were told of their tickets. */
  ghost predicate OwnersAgree(st: State, owners: map<Ticket, Owner>) {
    && (forall key, w :: key in st.scopes && w in st.scopes[key].enqueued ==>
          w.notify in owners && owners[w.notify] == Owner(key, w.allocationId))
    && (forall t :: t in owners ==> t < st.issued)
  }

  /** A step enqueues at most the ticket it answers Queued for. */
  lemma {:induction false} EnqueuedStep(st: State, ev: Event, key: string, w: Waiter)
    requires key in Step(st, ev).0.scopes && w in Step(st, ev).0.scopes[key].enqueued
    ensures (key in st.scopes && w in st.scopes[key].enqueued)
      || (Step(st, ev).1 == Queued && key == ev.key && w == Waiter(ev.allocationId, st.issued))
  {
  }

  lemma {:induction false} OwnersStep(st: State, ev: Event, owners: map<Ticket, Owner>)
    requires Inv(st) && OwnersAgree(st, owners)
    ensures OwnersAgree(
      Step(st, ev).0, if Step(st, ev).1 == Queued then owners[st.issued := Owner(ev.key, ev.allocationId)] else owners)
  {
    var next, queued := Step(st, ev).0, Step(st, ev).1 == Queued;
    IssuedStep(st, ev);
    forall key, w | key in next.scopes && w in next.scopes[key].enqueued
      ensures (key in st.scopes && w in st.scopes[key].enqueued)
        || (queued && key == ev.key && w == Waiter(ev.allocationId, st.issued))
    {
      EnqueuedStep(st, ev, key, w);
    }
    OwnersMove(st, next, owners, queued, Owner(ev.key, if queued then ev.allocationId else ""));
  }

  lemma OwnersMove(st: State, next: State, owners: map<Ticket, Owner>, queued: bool, owner: Owner)
    requires OwnersAgree(st, owners) && next.issued == if queued then st.issued + 1 else st.issued
    requires forall key, w :: key in next.scopes && w in next.scopes[key].enqueued ==>
      (key in st.scopes && w in st.scopes[key].enqueued)
      || (queued && key == owner.key && w == Waiter(owner.allocationId, st.issued))
    ensures OwnersAgree(next, if queued then owners[st.issued := owner] else owners)
  {
    var more := if queued then owners[st.issued := owner] else owners;
    forall key, w | key in next.scopes && w in next.scopes[key].enqueued
      ensures w.notify in more && more[w.notify] == Owner(key, w.allocationId)
    {
      if key in st.scopes && w in st.scopes[key].enqueued {
        assert w.notify in owners && w.notify < st.issued;
      }
    }
  }

  lemma IssuedStep(st: State, ev: Event)
    ensures Step(st, ev).0.issued == if Step(st, ev).1 == Queued then st.issued + 1 else st.issued
  {
  }

  lemma {:induction false} HoldersStep(
    st: State, ev: Event, owners: map<Ticket, Owner>, key: string, told: set<string>)
    requires Inv(st) && OwnersAgree(st, owners)
    requires told == HoldersOf(st, key)
    ensures var (after, reply) := Step(st, ev);
      HoldersOf(after, key) ==
        if reply == Held && ev.key == key then told + {ev.allocationId}
        else if reply == Released && ev.key == key then (told - {ev.allocationId}) + Woken(st, after, owners, key)
        else told
  {
    if ev.Release? && ev.key == key && ev.allocationId in told {
      WokenAreGranted(st, ev, owners, key);
      ReleaseHolders(st, ev, key);
    } else {
      OtherHolders(st, ev, key);
    }
  }

  lemma {:induction false} ReleaseHolders(st: State, ev: Event, key: string)
    requires ev.Release? && ev.key == key && ev.allocationId in HoldersOf(st, key)
    ensures var s := st.scopes[key].scope; var freed := s.(holders := s.holders - {ev.allocationId});
      && Step(st, ev).1 == Released
      && HoldersOf(Step(st, ev).0, key) == (s.holders - {ev.allocationId}) + Ids(s.waiters[..GrantCount(freed)])
  {
  }

  /** Besides a release only a reply Held adds a holder, and nothing else removes one. */
  lemma {:induction false} OtherHolders(st: State, ev: Event, key: string)
    requires !(ev.Release? && ev.key == key && ev.allocationId in HoldersOf(st, key))
    ensures var (after, reply) := Step(st, ev);
      && (reply == Released ==> ev.key != key)
      && HoldersOf(after, key)
         == if reply == Held && ev.key == key then HoldersOf(st, key) + {ev.allocationId} else HoldersOf(st, key)
  {
  }

  ghost function HoldersOf(st: State, key: string): set<string> {
    if key in st.scopes then st.scopes[key].scope.holders else {}
  }

  /** The channels a release closes are those of the waiters it grants. */
  lemma {:induction false} WokenAreGranted(st: State, ev: Event, owners: map<Ticket, Owner>, key: string)
    requires Inv(st) && OwnersAgree(st, owners)
    requires ev.Release? && ev.key == key && key in st.scopes && ev.allocationId in st.scopes[key].scope.holders
    ensures var after := Step(st, ev).0; var s := st.scopes[key].scope;
      var freed := s.(holders := s.holders - {ev.allocationId});
      Woken(st, after, owners, key) == Ids(s.waiters[..GrantCount(freed)])
  {
    var after := Step(st, ev).0;
    var session := st.scopes[key];
    var s := session.scope;
    var now := s.waiters[..GrantCount(s.(holders := s.holders - {ev.allocationId}))];
    TicketsPartition(session);
    NotifiesOfConcat(session.granted, now);
    assert s.waiters == now + s.waiters[|now|..];
    forall w | w in now
      ensures w.notify in after.closed && w.notify !in st.closed
      ensures w.notify in owners && owners[w.notify] == Owner(key, w.allocationId)
    {
      assert w in s.waiters && w.notify in Notifies(s.waiters) && w.notify in Notifies(session.enqueued);
      assert w.notify in Notifies(now);
      EnqueuedHolds(session, w);
    }
    forall t | t in after.closed && t !in st.closed ensures exists w :: w in now && w.notify == t {
      assert t in Notifies(session.granted) ==> t in Notifies(session.enqueued);
    }
  }

  lemma EnqueuedHolds(s: Session, w: Waiter)
    requires Fifo(s) && w in s.scope.waiters
    ensures w in s.enqueued
  {
    SurvivingIsSublist(s.enqueued, s.withdrawn);
    assert w in s.granted + s.scope.waiters;
  }

  /**
    After any run from the start: the holders of a scope are exactly the allocations that were told so and have not
    released since, by replies and closed channels alone; so there are never more of them than slots.
   */
  lemma {:induction false} HoldersAreTold(events: seq<Event>, key: string)
    ensures Inv(Run(INITIAL, events)) && OwnersAgree(Run(INITIAL, events), Owners(INITIAL, events))
    ensures ToldHolding(INITIAL, events, key)
         == HoldersOf(Run(INITIAL, events), key)
    ensures key in Run(INITIAL, events).scopes ==>
      |ToldHolding(INITIAL, events, key)| <= Run(INITIAL, events).scopes[key].scope.capacity <= 64
    decreases |events|
  {
    if events != [] {
      var front, ev := events[..|events| - 1], events[|events| - 1];
      HoldersAreTold(front, key);
      RunSnoc(INITIAL, events);
      StepKeepsInv(Run(INITIAL, front), ev);
      OwnersStep(Run(INITIAL, front), ev, Owners(INITIAL, front));
      HoldersStep(Run(INITIAL, front), ev, Owners(INITIAL, front), key, ToldHolding(INITIAL, front, key));
    }
  }
}
