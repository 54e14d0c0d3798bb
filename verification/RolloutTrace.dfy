/** What a rollout does on the workers, as a trace of events, and what every such trace satisfies. */
module RolloutTrace {
  import opened Batches
  import opened RolloutPolicy
  import opened Seqs

  /** One lifecycle command on one worker. */
  datatype Call = Call(worker: string, action: Action)

  /** What a batch's hooks are told: its workers, its index and how many batches there are. */
  datatype BatchContext = BatchContext(batch: seq<string>, index: int, count: int)

  datatype Event =
    | Began(call: Call)
    | Ended(call: Call, ok: bool)
    | Hooks(context: BatchContext, ok: bool)
    | Health(ok: bool)
    | Scripts(ok: bool)
    | Control(command: nat, added: seq<string>, updated: seq<string>, ok: bool)
    | Cleanup(worker: string, ok: bool)

  type Trace = seq<Event>

  /* ---- counting along a trace ---- */

  function Begun(tr: Trace): multiset<Call> {
    if tr == [] then multiset{}
    else
      var e := tr[|tr| - 1];
      Begun(tr[..|tr| - 1]) + (if e.Began? then multiset{e.call} else multiset{})
  }

  function Finished(tr: Trace): multiset<Call> {
    if tr == [] then multiset{}
    else
      var e := tr[|tr| - 1];
      Finished(tr[..|tr| - 1]) + (if e.Ended? then multiset{e.call} else multiset{})
  }

  function InFlight(tr: Trace): int {
    |Begun(tr)| - |Finished(tr)|
  }

  /** Health checks passed. */
  function Passes(tr: Trace): nat {
    if tr == [] then 0 else Passes(tr[..|tr| - 1]) + (if tr[|tr| - 1] == Health(true) then 1 else 0)
  }

  /** Workers touched since the last health check that passed. */
  function Exposed(tr: Trace): nat {
    if tr == [] then 0
    else
      var before, e := Exposed(tr[..|tr| - 1]), tr[|tr| - 1];
      if e.Began? then before + 1 else if e == Health(true) then 0 else before
  }

  function Calls(workers: seq<string>, action: Action): multiset<Call> {
    if workers == [] then multiset{}
    else Calls(workers[..|workers| - 1], action) + multiset{Call(workers[|workers| - 1], action)}
  }

  lemma {:induction false} Snoc(tr: Trace, e: Event)
    ensures Begun(tr + [e]) == Begun(tr) + (if e.Began? then multiset{e.call} else multiset{})
    ensures Finished(tr + [e]) == Finished(tr) + (if e.Ended? then multiset{e.call} else multiset{})
    ensures Passes(tr + [e]) == Passes(tr) + (if e == Health(true) then 1 else 0)
    ensures Exposed(tr + [e]) == if e.Began? then Exposed(tr) + 1 else if e == Health(true) then 0 else Exposed(tr)
  {
  }

  lemma LastOfSum<T>(a: seq<T>, b: seq<T>)
    requires b != []
    ensures (a + b)[..|a + b| - 1] == a + b[..|b| - 1] && (a + b)[|a + b| - 1] == b[|b| - 1]
  {
  }

  lemma {:induction false} BegunAdds(a: Trace, b: Trace)
    ensures Begun(a + b) == Begun(a) + Begun(b)
  {
    if b == [] {
      assert a + b == a;
    } else {
      var front := b[..|b| - 1];
      BegunAdds(a, front);
      LastOfSum(a, b);
    }
  }

  lemma {:induction false} FinishedAdds(a: Trace, b: Trace)
    ensures Finished(a + b) == Finished(a) + Finished(b)
  {
    if b == [] {
      assert a + b == a;
    } else {
      var front := b[..|b| - 1];
      FinishedAdds(a, front);
      LastOfSum(a, b);
    }
  }

  lemma {:induction false} PassesAdd(a: Trace, b: Trace)
    ensures Passes(a + b) == Passes(a) + Passes(b)
  {
    if b == [] {
      assert a + b == a;
    } else {
      var front := b[..|b| - 1];
      PassesAdd(a, front);
      LastOfSum(a, b);
    }
  }

  lemma {:induction false} CountsAdd(a: Trace, b: Trace)
    ensures Begun(a + b) == Begun(a) + Begun(b)
    ensures Finished(a + b) == Finished(a) + Finished(b)
    ensures Passes(a + b) == Passes(a) + Passes(b)
  {
    BegunAdds(a, b);
    FinishedAdds(a, b);
    PassesAdd(a, b);
  }

  lemma {:induction false} CallsAdd(a: seq<string>, b: seq<string>, action: Action)
    ensures Calls(a + b, action) == Calls(a, action) + Calls(b, action)
  {
    if b == [] {
      assert a + b == a;
    } else {
      var front := b[..|b| - 1];
      CallsAdd(a, front, action);
      LastOfSum(a, b);
    }
  }

  lemma {:induction false} CallsSize(workers: seq<string>, action: Action)
    ensures |Calls(workers, action)| == |workers|
    ensures forall w, x :: Calls(workers, action)[Call(w, x)] == if x == action then multiset(workers)[w] else 0
  {
    if workers != [] {
      CallsSize(workers[..|workers| - 1], action);
      assert workers == workers[..|workers| - 1] + [workers[|workers| - 1]];
    }
  }

  lemma {:induction false} CallsPermute(a: seq<string>, b: seq<string>, action: Action)
    requires Permutes(a, b)
    ensures Calls(a, action) == Calls(b, action)
  {
    CallsSize(a, action);
    CallsSize(b, action);
    forall c: Call ensures Calls(a, action)[c] == Calls(b, action)[c] {
      assert c == Call(c.worker, c.action);
    }
  }

  /* ---- one parallel run ---- */

  ghost predicate OnlyCalls(tr: Trace) {
    forall e :: e in tr ==> e.Began? || e.Ended?
  }

  ghost predicate AllPassed(tr: Trace) {
    forall e :: e in tr && e.Ended? ==> e.ok
  }

  /** At no moment has a call ended that did not begin, or are more than `limit` in flight. */
  ghost predicate WellPaced(tr: Trace, limit: nat) {
    && Finished(tr) <= Begun(tr) && InFlight(tr) <= limit
    && (tr != [] ==> WellPaced(tr[..|tr| - 1], limit))
  }

  lemma {:induction false} PacedAt(tr: Trace, limit: nat, i: nat)
    requires WellPaced(tr, limit) && i <= |tr|
    ensures Finished(tr[..i]) <= Begun(tr[..i]) && InFlight(tr[..i]) <= limit
  {
    if i == |tr| {
      assert tr[..i] == tr;
    } else {
      PacedAt(tr[..|tr| - 1], limit, i);
      assert tr[..|tr| - 1][..i] == tr[..i];
    }
  }

  /** Every worker of the batch is called once and every call ends, whatever the others do. */
  ghost predicate ParallelRun(tr: Trace, workers: seq<string>, action: Action, limit: nat) {
    && OnlyCalls(tr) && WellPaced(tr, limit)
    && Begun(tr) == Calls(workers, action) && Finished(tr) == Begun(tr)
  }

  lemma {:induction false} PacedSnoc(tr: Trace, e: Event, limit: nat)
    requires WellPaced(tr, limit)
    requires Finished(tr + [e]) <= Begun(tr + [e]) && InFlight(tr + [e]) <= limit
    ensures WellPaced(tr + [e], limit)
  {
  }

  /* ---- one batch ---- */

  /** How a batch ended: at a failed call, at its hooks, or at the health check where it has one. */
  datatype Outcome = CallFailed | HookFailed | HooksDone | Unhealthy | Healthy

  datatype Segment = Segment(context: BatchContext, calls: Trace, outcome: Outcome)

  function After(context: BatchContext, outcome: Outcome): Trace {
    match outcome
    case CallFailed => []
    case HookFailed => [Hooks(context, false)]
    case HooksDone => [Hooks(context, true)]
    case Unhealthy => [Hooks(context, true), Health(false)]
    case Healthy => [Hooks(context, true), Health(true)]
  }

  function Events(s: Segment): Trace {
    s.calls + After(s.context, s.outcome)
  }

  ghost predicate SoundSegment(s: Segment, action: Action) {
    && ParallelRun(s.calls, s.context.batch, action, |s.context.batch|)
    && (AllPassed(s.calls) <==> s.outcome != CallFailed)
  }

  lemma AfterCounts(context: BatchContext, outcome: Outcome, i: nat)
    requires i <= |After(context, outcome)|
    ensures var part := After(context, outcome)[..i];
      && Begun(part) == multiset{} && Finished(part) == multiset{}
      && Passes(part) == (if outcome == Healthy && i == 2 then 1 else 0)
  {
    var after := After(context, outcome);
    if i == 0 {
      assert after[..i] == [];
    } else if i == 1 {
      QuietCounts(after[0]);
      assert after[..i] == [after[0]];
    } else {
      QuietCounts(after[0]);
      QuietCounts(after[1]);
      CountsAdd([after[0]], [after[1]]);
      assert after[..i] == [after[0]] + [after[1]];
    }
  }

  lemma QuietCounts(e: Event)
    requires !e.Began? && !e.Ended?
    ensures Begun([e]) == Finished([e]) == multiset{} && Passes([e]) == if e == Health(true) then 1 else 0
  {
    assert [] + [e] == [e];
    Snoc([], e);
  }

  lemma {:induction false} CallsHaveNoPass(tr: Trace)
    requires OnlyCalls(tr)
    ensures Passes(tr) == 0
  {
    if tr != [] {
      assert tr[|tr| - 1] in tr;
      assert OnlyCalls(tr[..|tr| - 1]);
      CallsHaveNoPass(tr[..|tr| - 1]);
    }
  }

  lemma {:induction false} SegmentCounts(s: Segment, action: Action)
    requires SoundSegment(s, action)
    ensures Begun(Events(s)) == Calls(s.context.batch, action) && Finished(Events(s)) == Begun(Events(s))
    ensures Passes(Events(s)) == if s.outcome == Healthy then 1 else 0
  {
    var after := After(s.context, s.outcome);
    AfterCounts(s.context, s.outcome, |after|);
    assert after[..|after|] == after;
    CountsAdd(s.calls, after);
    CallsHaveNoPass(s.calls);
  }

  lemma {:induction false} CallsPartCounts(s: Segment, i: nat, action: Action)
    requires SoundSegment(s, action) && i <= |s.calls|
    ensures var part := s.calls[..i];
      && Begun(part) <= Calls(s.context.batch, action) && Finished(part) <= Begun(part)
      && InFlight(part) <= |s.context.batch| && Passes(part) == 0
  {
    var part := s.calls[..i];
    PacedAt(s.calls, |s.context.batch|, i);
    assert s.calls == part + s.calls[i..];
    CountsAdd(part, s.calls[i..]);
    assert OnlyCalls(part) by {
      assert forall e :: e in part ==> e in s.calls;
    }
    CallsHaveNoPass(part);
  }

  lemma {:induction false} AfterPartCounts(s: Segment, j: nat, action: Action)
    requires SoundSegment(s, action) && j <= |After(s.context, s.outcome)|
    ensures var part := s.calls + After(s.context, s.outcome)[..j];
      && Begun(part) == Finished(part) == Calls(s.context.batch, action)
      && Passes(part) == (if s.outcome == Healthy && j == 2 then 1 else 0)
  {
    var rest := After(s.context, s.outcome)[..j];
    AfterCounts(s.context, s.outcome, j);
    CountsAdd(s.calls, rest);
    CallsHaveNoPass(s.calls);
  }

  /** A part of a segment: its calls are among the batch's, its pace is kept, and only all of it can have passed. */
  lemma {:induction false} PartCounts(s: Segment, i: nat, action: Action)
    requires SoundSegment(s, action) && i <= |Events(s)|
    ensures var part := Events(s)[..i];
      && Begun(part) <= Calls(s.context.batch, action) && Finished(part) <= Begun(part)
      && InFlight(part) <= |s.context.batch|
      && Passes(part) == (if s.outcome == Healthy && i == |Events(s)| then 1 else 0)
  {
    EventsTake(s, i);
    if i <= |s.calls| {
      CallsPartCounts(s, i, action);
    } else {
      AfterPartCounts(s, i - |s.calls|, action);
    }
  }

  lemma EventsTake(s: Segment, i: nat)
    requires i <= |Events(s)|
    ensures Events(s)[..i] ==
      if i <= |s.calls| then s.calls[..i] else s.calls + After(s.context, s.outcome)[..i - |s.calls|]
  {
  }

  /* ---- a batched rollout ---- */

  function TraceOf(segments: seq<Segment>): Trace {
    if segments == [] then [] else TraceOf(segments[..|segments| - 1]) + Events(segments[|segments| - 1])
  }

  /** The workers of the batches a run has segments for. */
  function Attempted(segments: seq<Segment>): seq<string> {
    if segments == [] then [] else Attempted(segments[..|segments| - 1]) + segments[|segments| - 1].context.batch
  }

  /** The segments are the first batches, in order, their hooks told the true index and count. */
  ghost predicate Follows(segments: seq<Segment>, batches: seq<seq<string>>, action: Action) {
    && |segments| <= |batches|
    && forall k :: 0 <= k < |segments| ==>
         segments[k].context == BatchContext(batches[k], k, |batches|) && SoundSegment(segments[k], action)
  }

  ghost predicate AllEnded(segments: seq<Segment>, outcome: Outcome) {
    forall k :: 0 <= k < |segments| ==> segments[k].outcome == outcome
  }

  /** Restart batches: each must pass its own health check before the next begins. */
  ghost predicate RestartRun(segments: seq<Segment>, batches: seq<seq<string>>, action: Action, ok: bool) {
    && Follows(segments, batches, action)
    && (ok ==> |segments| == |batches| && AllEnded(segments, Healthy))
    && (!ok ==>
      && segments != [] && AllEnded(segments[..|segments| - 1], Healthy)
      && segments[|segments| - 1].outcome in {CallFailed, HookFailed, Unhealthy})
  }

  /** Start batches: hooks after each, one health check at the end if they all get through. */
  ghost predicate StartRun(segments: seq<Segment>, batches: seq<seq<string>>, action: Action, final: Trace, ok: bool) {
    && Follows(segments, batches, action)
    && (final == [] ==>
      && !ok && segments != [] && AllEnded(segments[..|segments| - 1], HooksDone)
      && segments[|segments| - 1].outcome in {CallFailed, HookFailed})
    && (final != [] ==> final == [Health(ok)] && |segments| == |batches| && AllEnded(segments, HooksDone))
  }

  /** However it ended, a run attempted exactly the batches it has segments for, each worker once. */
  lemma {:induction false} AttemptsItsBatches(segments: seq<Segment>, batches: seq<seq<string>>, action: Action)
    requires Follows(segments, batches, action)
    ensures Begun(TraceOf(segments)) == Calls(Attempted(segments), action)
    ensures Finished(TraceOf(segments)) == Begun(TraceOf(segments))
    ensures Attempted(segments) == Flat(batches[..|segments|])
  {
    if segments == [] {
      assert batches[..0] == [];
    } else {
      var n := |segments| - 1;
      var front, last := segments[..n], segments[n];
      AttemptsItsBatches(front, batches, action);
      SegmentCounts(last, action);
      CountsAdd(TraceOf(front), Events(last));
      CallsAdd(Attempted(front), last.context.batch, action);
      FlatTake(batches, n);
    }
  }

  lemma {:induction false} HealthyPasses(segments: seq<Segment>, batches: seq<seq<string>>, action: Action)
    requires Follows(segments, batches, action) && AllEnded(segments, Healthy)
    ensures Passes(TraceOf(segments)) == |segments| && Exposed(TraceOf(segments)) == 0
  {
    if segments != [] {
      var n := |segments| - 1;
      var front, last := segments[..n], segments[n];
      HealthyPasses(front, batches, action);
      SegmentCounts(last, action);
      CountsAdd(TraceOf(front), Events(last));
      EndsHealthy(TraceOf(front), last);
    }
  }

  lemma {:induction false} EndsHealthy(done: Trace, s: Segment)
    requires s.outcome == Healthy
    ensures Exposed(done + Events(s)) == 0
  {
  }

  lemma {:induction false} StoppedPasses(segments: seq<Segment>, batches: seq<seq<string>>, action: Action)
    requires Follows(segments, batches, action) && segments != []
    requires AllEnded(segments[..|segments| - 1], Healthy) && segments[|segments| - 1].outcome != Healthy
    ensures Passes(TraceOf(segments)) == |segments| - 1
  {
    var n := |segments| - 1;
    HealthyPasses(segments[..n], batches, action);
    SegmentCounts(segments[n], action);
    CountsAdd(TraceOf(segments[..n]), Events(segments[n]));
  }

  /**
    A restart rollout that succeeds attempts every worker exactly once. One that stops in batch k has attempted
    exactly the batches 0 to k, and every batch before k passed its health check.
  */
  lemma RestartAttempts(segments: seq<Segment>, order: seq<string>, size: nat, action: Action, ok: bool)
    requires size > 0 && RestartRun(segments, Cut(order, size), action, ok)
    ensures Finished(TraceOf(segments)) == Begun(TraceOf(segments))
    ensures ok ==> Begun(TraceOf(segments)) == Calls(order, action) && Passes(TraceOf(segments)) == |Cut(order, size)|
    ensures !ok ==>
      (var k := |segments| - 1;
       && 0 <= k < |Cut(order, size)|
       && Begun(TraceOf(segments)) == Calls(Flat(Cut(order, size)[..k + 1]), action)
       && Passes(TraceOf(segments)) == k)
  {
    var batches := Cut(order, size);
    AttemptsItsBatches(segments, batches, action);
    CutSpec(order, size);
    if ok {
      assert batches[..|segments|] == batches && Flat(batches) == order;
      HealthyPasses(segments, batches, action);
    } else {
      StoppedPasses(segments, batches, action);
    }
  }

  /** The same for a start rollout, whose only health check comes after the last batch. */
  lemma {:induction false} StartAttempts(
    segments: seq<Segment>, order: seq<string>, size: nat, action: Action, final: Trace, ok: bool)
    requires size > 0 && StartRun(segments, Cut(order, size), action, final, ok)
    ensures ok ==> Begun(TraceOf(segments) + final) == Calls(order, action)
    ensures Begun(TraceOf(segments) + final) == Calls(Flat(Cut(order, size)[..|segments|]), action)
    ensures Finished(TraceOf(segments) + final) == Begun(TraceOf(segments) + final)
    ensures final != [] ==> |segments| == |Cut(order, size)|
  {
    var batches := Cut(order, size);
    AttemptsItsBatches(segments, batches, action);
    CutSpec(order, size);
    FinalCounts(TraceOf(segments), final, ok);
    if final != [] {
      assert batches[..|segments|] == batches;
    }
  }

  lemma {:induction false} FinalCounts(tr: Trace, final: Trace, ok: bool)
    requires final == [] || final == [Health(ok)]
    ensures Begun(tr + final) == Begun(tr) && Finished(tr + final) == Finished(tr)
  {
    if final == [] {
      assert tr + final == tr;
    } else {
      Snoc(tr, Health(ok));
    }
  }

  /* ---- every moment of a restart rollout ---- */

  lemma {:induction false} ExposedAdds(a: Trace, b: Trace)
    requires Passes(b) == 0
    ensures Exposed(a + b) == Exposed(a) + |Begun(b)|
  {
    if b == [] {
      assert a + b == a;
    } else {
      var front, last := b[..|b| - 1], b[|b| - 1];
      ExposedAdds(a, front);
      assert a + b == (a + front) + [last];
      Snoc(a + front, last);
    }
  }

  /** The batches that may have been touched once so many health checks have passed. */
  function Open(batches: seq<seq<string>>, passes: nat): seq<string> {
    Flat(batches[..Min(passes + 1, |batches|)])
  }

  lemma {:induction false} OpenGrows(batches: seq<seq<string>>, k: nat, action: Action)
    requires k < |batches|
    ensures Calls(Flat(batches[..k]), action) + Calls(batches[k], action) == Calls(Open(batches, k), action)
    ensures Calls(Open(batches, k), action) <= Calls(Open(batches, k + 1), action)
  {
    FlatTake(batches, k);
    CallsAdd(Flat(batches[..k]), batches[k], action);
    if k + 1 < |batches| {
      FlatTake(batches, k + 1);
      CallsAdd(Flat(batches[..k + 1]), batches[k + 1], action);
    }
  }

  lemma SmallerIsFewer(a: multiset<Call>, b: multiset<Call>)
    requires a <= b
    ensures |a| <= |b| && |b - a| == |b| - |a|
  {
  }

  /**
    At one moment: at most a batch of workers touched since the last health check that passed, at most a batch of
    calls in flight, and no worker touched whose earlier batches have not all passed.
   */
  ghost predicate Gated(tr: Trace, batches: seq<seq<string>>, action: Action, size: nat) {
    && Exposed(tr) <= size && 0 <= InFlight(tr) <= size
    && Begun(tr) <= Calls(Open(batches, Passes(tr)), action)
  }

  lemma {:induction false} GatedInBatch(
    done: Trace, s: Segment, i: nat, batches: seq<seq<string>>, k: nat, action: Action, size: nat, tr: Trace)
    requires k < |batches| && s.context.batch == batches[k] && |s.context.batch| <= size
    requires SoundSegment(s, action) && i <= |Events(s)|
    requires Begun(done) == Finished(done) == Calls(Flat(batches[..k]), action)
    requires Passes(done) == k && Exposed(done) == 0 && tr == done + Events(s)[..i]
    ensures Gated(tr, batches, action, size)
  {
    var part := Events(s)[..i];
    CountsAdd(done, part);
    PartCounts(s, i, action);
    CallsSize(s.context.batch, action);
    OpenGrows(batches, k, action);
    SmallerIsFewer(Begun(part), Calls(s.context.batch, action));
    SmallerIsFewer(Finished(part), Begun(part));
    if Passes(part) == 0 {
      ExposedAdds(done, part);
    } else {
      assert part == Events(s);
      EndsHealthy(done, s);
    }
  }

  lemma PrefixOfFront(a: Trace, b: Trace, tr: Trace)
    requires tr <= a + b && |tr| <= |a|
    ensures tr <= a
  {
  }

  lemma PrefixOfSum(a: Trace, b: Trace, tr: Trace)
    requires tr <= a + b && |a| <= |tr|
    ensures tr == a + b[..|tr| - |a|]
  {
  }

  /** After whole healthy batches: all their calls made and ended, a pass for each, nobody exposed. */
  ghost predicate PassedBatches(done: Trace, batches: seq<seq<string>>, k: nat, action: Action) {
    && k <= |batches| && Begun(done) == Finished(done) == Calls(Flat(batches[..k]), action)
    && Passes(done) == k && Exposed(done) == 0
  }

  lemma {:induction false} HealthyDone(front: seq<Segment>, batches: seq<seq<string>>, action: Action)
    requires Follows(front, batches, action) && AllEnded(front, Healthy)
    ensures PassedBatches(TraceOf(front), batches, |front|, action)
  {
    HealthyPasses(front, batches, action);
    AttemptsItsBatches(front, batches, action);
  }

  lemma {:induction false} LastIsGated(
    done: Trace, last: Segment, batches: seq<seq<string>>, k: nat, action: Action, size: nat, tr: Trace)
    requires k < |batches| && PassedBatches(done, batches, k, action)
    requires last.context.batch == batches[k] && |last.context.batch| <= size && SoundSegment(last, action)
    requires tr <= done + Events(last) && |done| <= |tr|
    ensures Gated(tr, batches, action, size)
  {
    PrefixOfSum(done, Events(last), tr);
    GatedInBatch(done, last, |tr| - |done|, batches, k, action, size, tr);
  }

  ghost predicate Fit(batches: seq<seq<string>>, size: nat) {
    forall k :: 0 <= k < |batches| ==> |batches[k]| <= size
  }

  lemma {:induction false} PrefixIsGated(
    segments: seq<Segment>, batches: seq<seq<string>>, action: Action, size: nat, tr: Trace)
    requires Follows(segments, batches, action) && Fit(batches, size) && tr <= TraceOf(segments)
    requires segments != [] ==> AllEnded(segments[..|segments| - 1], Healthy)
    ensures Gated(tr, batches, action, size)
    decreases |segments|
  {
    if segments == [] {
      NothingIsGated(batches, action, size, tr);
    } else {
      var n := |segments| - 1;
      var front := segments[..n];
      FrontFollows(segments, batches, action);
      if |tr| <= |TraceOf(front)| {
        PrefixOfFront(TraceOf(front), Events(segments[n]), tr);
        PrefixIsGated(front, batches, action, size, tr);
      } else {
        HealthyDone(front, batches, action);
        LastIsGated(TraceOf(front), segments[n], batches, n, action, size, tr);
      }
    }
  }

  lemma NothingIsGated(batches: seq<seq<string>>, action: Action, size: nat, tr: Trace)
    requires tr == []
    ensures Gated(tr, batches, action, size)
  {
  }

  lemma FrontFollows(segments: seq<Segment>, batches: seq<seq<string>>, action: Action)
    requires segments != [] && Follows(segments, batches, action) && AllEnded(segments[..|segments| - 1], Healthy)
    ensures var front := segments[..|segments| - 1];
      Follows(front, batches, action) && (front != [] ==> AllEnded(front[..|front| - 1], Healthy))
  {
  }

  /** Every moment of every restart rollout, however it ends. */
  lemma {:induction false} RestartIsGated(
    segments: seq<Segment>, order: seq<string>, size: nat, action: Action, ok: bool, i: nat)
    requires size > 0 && RestartRun(segments, Cut(order, size), action, ok) && i <= |TraceOf(segments)|
    ensures Gated(TraceOf(segments)[..i], Cut(order, size), action, size)
  {
    CutSpec(order, size);
    PrefixIsGated(segments, Cut(order, size), action, size, TraceOf(segments)[..i]);
  }

  /* ---- the pace of any trace ---- */

  /** At every moment no call has ended that did not begin, and no more than so many are in flight. */
  ghost predicate Paced(tr: Trace, limit: nat) {
    forall i :: 0 <= i <= |tr| ==> 0 <= InFlight(tr[..i]) <= limit
  }

  lemma {:induction false} InFlightAdds(a: Trace, b: Trace)
    ensures InFlight(a + b) == InFlight(a) + InFlight(b)
  {
    CountsAdd(a, b);
  }

  /** Where every call has ended the next part starts afresh. */
  lemma {:induction false} PacedAdds(a: Trace, b: Trace, limit: nat)
    requires Paced(a, limit) && Finished(a) == Begun(a) && Paced(b, limit)
    ensures Paced(a + b, limit)
  {
    forall i | 0 <= i <= |a + b| ensures 0 <= InFlight((a + b)[..i]) <= limit {
      if i <= |a| {
        assert (a + b)[..i] == a[..i];
      } else {
        assert (a + b)[..i] == a + b[..i - |a|];
        InFlightAdds(a, b[..i - |a|]);
      }
    }
  }

  lemma {:induction false} SilentIsPaced(tr: Trace, limit: nat)
    requires forall e :: e in tr ==> !e.Began? && !e.Ended?
    ensures Paced(tr, limit) && Begun(tr) == Finished(tr) == multiset{}
    decreases |tr|
  {
    if tr != [] {
      var front := tr[..|tr| - 1];
      SilentIsPaced(front, limit);
      assert tr[|tr| - 1] in tr;
      forall i | 0 <= i <= |tr| ensures 0 <= InFlight(tr[..i]) <= limit {
        assert i < |tr| ==> tr[..i] == front[..i];
        assert i == |tr| ==> tr[..i] == tr;
      }
    }
  }

  lemma {:induction false} SegmentIsPaced(s: Segment, action: Action, limit: nat)
    requires SoundSegment(s, action) && |s.context.batch| <= limit
    ensures Paced(Events(s), limit) && Finished(Events(s)) == Begun(Events(s))
  {
    SegmentCounts(s, action);
    forall i | 0 <= i <= |Events(s)| ensures 0 <= InFlight(Events(s)[..i]) <= limit {
      PartCounts(s, i, action);
      SmallerIsFewer(Finished(Events(s)[..i]), Begun(Events(s)[..i]));
    }
  }

  /** A batched rollout never has more calls in flight than its batches are wide. */
  lemma {:induction false} BatchesArePaced(segments: seq<Segment>, batches: seq<seq<string>>, action: Action, limit: nat)
    requires Follows(segments, batches, action) && Fit(batches, limit)
    ensures Paced(TraceOf(segments), limit) && Finished(TraceOf(segments)) == Begun(TraceOf(segments))
    decreases |segments|
  {
    AttemptsItsBatches(segments, batches, action);
    if segments != [] {
      var n := |segments| - 1;
      BatchesArePaced(segments[..n], batches, action, limit);
      SegmentIsPaced(segments[n], action, limit);
      PacedAdds(TraceOf(segments[..n]), Events(segments[n]), limit);
    }
  }

  /* ---- what the hooks are told ---- */

  /** The batches whose hooks ran, in order. */
  function HookContexts(tr: Trace): seq<BatchContext> {
    if tr == [] then []
    else
      var e := tr[|tr| - 1];
      HookContexts(tr[..|tr| - 1]) + (if e.Hooks? then [e.context] else [])
  }

  ghost predicate HooksPassed(tr: Trace) {
    forall e :: e in tr && e.Hooks? ==> e.ok
  }

  lemma {:induction false} HooksAdd(a: Trace, b: Trace)
    ensures HookContexts(a + b) == HookContexts(a) + HookContexts(b)
    ensures HooksPassed(a + b) <==> HooksPassed(a) && HooksPassed(b)
  {
    if b == [] {
      assert a + b == a;
    } else {
      HooksAdd(a, b[..|b| - 1]);
      LastOfSum(a, b);
      assert b == b[..|b| - 1] + [b[|b| - 1]];
    }
  }

  lemma {:induction false} NoHooks(tr: Trace)
    requires forall e :: e in tr ==> !e.Hooks?
    ensures HookContexts(tr) == [] && HooksPassed(tr)
  {
    if tr != [] {
      assert tr[|tr| - 1] in tr;
      NoHooks(tr[..|tr| - 1]);
    }
  }

  lemma {:induction false} SegmentHooks(s: Segment, action: Action)
    requires SoundSegment(s, action)
    ensures HookContexts(Events(s)) == if s.outcome == CallFailed then [] else [s.context]
    ensures HooksPassed(Events(s)) <==> s.outcome != HookFailed
  {
    var after := After(s.context, s.outcome);
    NoHooks(s.calls);
    HooksAdd(s.calls, after);
    if after != [] {
      assert after == after[..1] + after[1..] && after[0] in after;
      assert [after[0]][..0] == [] && HookContexts([after[0]]) == [s.context];
      NoHooks(after[1..]);
      HooksAdd(after[..1], after[1..]);
    }
  }

  /** The batches of a list for a width: each full but perhaps the last, with its index and their number. */
  function BatchesAt(order: seq<string>, width: nat): seq<BatchContext>
    requires width > 0
  {
    var count := (|order| + width - 1) / width;
    seq(count, k requires 0 <= k < count => BatchContext(Slice(order, k * width, width), k, count))
  }

  function Slice(order: seq<string>, from: int, width: nat): seq<string> {
    if from < 0 || from >= |order| then []
    else if from + width <= |order| then order[from..from + width]
    else order[from..]
  }

  lemma {:induction false} CutIsBatches(order: seq<string>, width: nat, k: nat)
    requires width > 0 && k < |Cut(order, width)|
    ensures |BatchesAt(order, width)| == |Cut(order, width)|
    ensures BatchesAt(order, width)[k] == BatchContext(Cut(order, width)[k], k, |Cut(order, width)|)
  {
    CutSpec(order, width);
    CutAt(order, width, k);
  }

  lemma {:induction false} CutCount(order: seq<string>, width: nat)
    requires width > 0
    ensures |BatchesAt(order, width)| == |Cut(order, width)|
  {
    CutSpec(order, width);
    if order == [] {
      assert (width - 1) / width == 0;
    }
  }

  function ContextsOf(segments: seq<Segment>): seq<BatchContext> {
    if segments == [] then [] else ContextsOf(segments[..|segments| - 1]) + [segments[|segments| - 1].context]
  }

  lemma {:induction false} ContextsAt(segments: seq<Segment>)
    ensures |ContextsOf(segments)| == |segments|
    ensures forall k :: 0 <= k < |segments| ==> ContextsOf(segments)[k] == segments[k].context
  {
    if segments != [] {
      ContextsAt(segments[..|segments| - 1]);
    }
  }

  lemma {:induction false} HooksOfRun(segments: seq<Segment>)
    requires forall k :: 0 <= k < |segments| ==>
      HookContexts(Events(segments[k])) == [segments[k].context] && HooksPassed(Events(segments[k]))
    ensures HookContexts(TraceOf(segments)) == ContextsOf(segments) && HooksPassed(TraceOf(segments))
    decreases |segments|
  {
    if segments != [] {
      var n := |segments| - 1;
      var front := segments[..n];
      assert forall k :: 0 <= k < n ==> front[k] == segments[k];
      HooksOfRun(front);
      HooksAdd(TraceOf(front), Events(segments[n]));
    }
  }

  lemma {:induction false} ContextsAreBatches(segments: seq<Segment>, order: seq<string>, width: nat, action: Action)
    requires width > 0 && Follows(segments, Cut(order, width), action) && |segments| == |Cut(order, width)|
    ensures ContextsOf(segments) == BatchesAt(order, width)
  {
    CutCount(order, width);
    ContextsAt(segments);
    forall k | 0 <= k < |segments| ensures ContextsOf(segments)[k] == BatchesAt(order, width)[k] {
      CutIsBatches(order, width, k);
    }
  }

  /** Whole runs: the hooks are told the batches in order, with true index and count, and pass. */
  lemma {:induction false} HooksFollow(segments: seq<Segment>, order: seq<string>, width: nat, action: Action)
    requires width > 0 && Follows(segments, Cut(order, width), action) && |segments| == |Cut(order, width)|
    requires forall k :: 0 <= k < |segments| ==> segments[k].outcome != CallFailed && segments[k].outcome != HookFailed
    ensures HookContexts(TraceOf(segments)) == BatchesAt(order, width) && HooksPassed(TraceOf(segments))
  {
    forall k | 0 <= k < |segments|
      ensures HookContexts(Events(segments[k])) == [segments[k].context] && HooksPassed(Events(segments[k]))
    {
      SegmentHooks(segments[k], action);
    }
    HooksOfRun(segments);
    ContextsAreBatches(segments, order, width, action);
  }

  /** A restart rollout that succeeds told its hooks every batch, in order, with true index and count, and all passed. */
  lemma {:induction false} RestartTellsHooks(segments: seq<Segment>, order: seq<string>, width: nat, action: Action)
    requires width > 0 && RestartRun(segments, Cut(order, width), action, true)
    ensures HookContexts(TraceOf(segments)) == BatchesAt(order, width) && HooksPassed(TraceOf(segments))
  {
    HooksFollow(segments, order, width, action);
  }

  /** So did a start rollout, and it ended with its one health check, which passed. */
  lemma {:induction false} StartTellsHooks(
    segments: seq<Segment>, order: seq<string>, width: nat, final: Trace, tr: Trace)
    requires width > 0 && StartRun(segments, Cut(order, width), Start, final, true) && tr == TraceOf(segments) + final
    ensures HookContexts(tr) == BatchesAt(order, width) && HooksPassed(tr)
    ensures Passes(tr) == 1 && tr != [] && tr[|tr| - 1] == Health(true)
  {
    HooksFollow(segments, order, width, Start);
    NoHooks(final);
    HooksAdd(TraceOf(segments), final);
    NonePassed(segments, Cut(order, width), Start);
    Snoc(TraceOf(segments), Health(true));
  }

  lemma {:induction false} NonePassed(segments: seq<Segment>, batches: seq<seq<string>>, action: Action)
    requires Follows(segments, batches, action) && AllEnded(segments, HooksDone)
    ensures Passes(TraceOf(segments)) == 0
    decreases |segments|
  {
    if segments != [] {
      var n := |segments| - 1;
      NonePassed(segments[..n], batches, action);
      SegmentCounts(segments[n], action);
      CountsAdd(TraceOf(segments[..n]), Events(segments[n]));
    }
  }

  /** All batches before the last have exactly the width, and their number is the least that holds all workers. */
  lemma BatchWidths(order: seq<string>, width: nat, k: nat)
    requires width > 0 && k < |BatchesAt(order, width)|
    ensures var c := BatchesAt(order, width)[k];
      && c.index == k && c.count == |BatchesAt(order, width)|
      && c.count * width >= |order| > (c.count - 1) * width
      && (k < c.count - 1 ==> |c.batch| == width) && 0 < |c.batch| <= width
  {
    CutCount(order, width);
    CutIsBatches(order, width, k);
    CutSpec(order, width);
    CountIsCeiling(|order|, width);
  }
}
