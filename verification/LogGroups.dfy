/** Grouping log entries into command blocks and loose events, without losing any. */
module LogGroups {
  import opened LogLine
  import opened Options

  datatype Block = Block(begin: Entry, streams: seq<Entry>, end: Option<Entry>)

  function FieldOf(e: Entry, key: string): string {
    if key in e.fields then e.fields[key] else ""
  }

  function EventOf(e: Entry): string {
    FieldOf(e, "event")
  }

  predicate StreamLike(e: Entry) {
    EventOf(e) == "" && (FieldOf(e, "msg") != "" || FieldOf(e, "stream") != "")
  }

  /* ---- the grouping, on positions ---- */

  /** A block by positions; it was closed before `stop`, at it, or runs to the end of the log. */
  datatype Span = Span(begin: nat, streams: seq<nat>, end: Option<nat>, stop: nat)

  datatype Groups = Groups(current: Option<Span>, spans: seq<Span>, events: seq<nat>)

  function Flush(g: Groups): Groups {
    match g.current
    case None => g
    case Some(span) => Groups(None, g.spans + [span], g.events)
  }

  function Step(g: Groups, e: Entry, i: nat): Groups {
    var event := EventOf(e);
    if event == "command_begin" then Flush(g).(current := Some(Span(i, [], None, i + 1)))
    else if event == "command_end" then
      if g.current.Some? then Flush(g.(current := Some(g.current.value.(end := Some(i)))))
      else g.(events := g.events + [i])
    else if event != "" then Flush(g).(events := g.events + [i])
    else
      var longer := if g.current.Some? then Some(g.current.value.(stop := i + 1)) else None;
      if StreamLike(e) && g.current.Some? then
        g.(current := Some(longer.value.(streams := g.current.value.streams + [i])))
      else if e.raw != "" then g.(current := longer, events := g.events + [i])
      else g.(current := longer)
  }

  function Grouped(entries: seq<Entry>, n: nat): Groups
    requires n <= |entries|
  {
    if n == 0 then Groups(None, [], []) else Step(Grouped(entries, n - 1), entries[n - 1], n - 1)
  }

  /* ---- what a grouping must be ---- */

  predicate Increasing(s: seq<nat>) {
    forall i, j :: 0 <= i < j < |s| ==> s[i] < s[j]
  }

  /**
    A span opens at a command_begin, has no other event line before its stop, holds every stream line in between in
    order, and has an end exactly if the line it stops at is a command_end.
   */
  ghost predicate IsSpan(entries: seq<Entry>, n: nat, s: Span) {
    && s.begin < s.stop <= n <= |entries| && EventOf(entries[s.begin]) == "command_begin"
    && (forall j: nat :: s.begin < j < s.stop ==> EventOf(entries[j]) == "")
    && (s.stop < n ==> EventOf(entries[s.stop]) != "")
    && Increasing(s.streams)
    && (forall j: nat :: j in s.streams <==> s.begin < j < s.stop && StreamLike(entries[j]))
    && s.end == (if s.stop < n && EventOf(entries[s.stop]) == "command_end" then Some(s.stop) else None)
  }

  predicate Owns(s: Span, i: nat) {
    i == s.begin || i in s.streams || s.end == Some(i)
  }

  ghost predicate Owned(spans: seq<Span>, i: nat) {
    exists k :: 0 <= k < |spans| && Owns(spans[k], i)
  }

  /** An entry that says nothing at all. */
  predicate Blank(e: Entry) {
    e.raw == "" && EventOf(e) == ""
  }

  /** Spans that follow each other and take every command_begin; events are the rest, in order, blank ones dropped. */
  ghost predicate IsGrouping(entries: seq<Entry>, n: nat, spans: seq<Span>, events: seq<nat>) {
    && n <= |entries|
    && (forall k :: 0 <= k < |spans| ==> IsSpan(entries, n, spans[k]))
    && (forall k, m :: 0 <= k < m < |spans| ==> spans[k].stop <= spans[m].begin)
    && (forall i: nat :: i < n && EventOf(entries[i]) == "command_begin" ==> Owned(spans, i))
    && Increasing(events)
    && (forall i: nat :: i in events <==> i < n && !Owned(spans, i) && !Blank(entries[i]))
  }

  ghost predicate Inv(entries: seq<Entry>, n: nat, g: Groups) {
    && IsGrouping(entries, n, Flush(g).spans, g.events)
    && (forall k :: 0 <= k < |g.spans| ==> g.spans[k].stop < n)
    && (g.current.Some? ==> g.current.value.stop == n)
  }

  /* ---- one step keeps it ---- */

  lemma ClosedSpanStays(entries: seq<Entry>, n: nat, s: Span)
    requires IsSpan(entries, n, s) && s.stop < n < |entries|
    ensures IsSpan(entries, n + 1, s) && !Owns(s, n)
  {
  }

  /** The open span after one more line. */
  function Moved(s: Span, e: Entry, n: nat): Span {
    if EventOf(e) == "command_end" then s.(end := Some(n))
    else if EventOf(e) != "" then s
    else if StreamLike(e) then s.(stop := n + 1, streams := s.streams + [n])
    else s.(stop := n + 1)
  }

  lemma IncreasingSnoc(s: seq<nat>, n: nat)
    requires Increasing(s) && forall i :: i in s ==> i < n
    ensures Increasing(s + [n])
  {
    forall i, j | 0 <= i < j < |s + [n]| ensures (s + [n])[i] < (s + [n])[j] {
      assert s[i] in s;
    }
  }

  lemma OpenSpanMoves(entries: seq<Entry>, n: nat, s: Span)
    requires IsSpan(entries, n, s) && s.stop == n < |entries|
    ensures IsSpan(entries, n + 1, Moved(s, entries[n], n))
    ensures forall i: nat :: i != n ==> Owns(Moved(s, entries[n], n), i) == Owns(s, i)
    ensures Owns(Moved(s, entries[n], n), n) <==> EventOf(entries[n]) == "command_end" || StreamLike(entries[n])
  {
    IncreasingSnoc(s.streams, n);
  }

  function Opened(e: Entry, n: nat): seq<Span> {
    if EventOf(e) == "command_begin" then [Span(n, [], None, n + 1)] else []
  }

  /** One step moves the open span and may open another. */
  lemma StepSpans(g: Groups, e: Entry, n: nat)
    ensures Flush(Step(g, e, n)).spans
         == g.spans + (if g.current.Some? then [Moved(g.current.value, e, n)] else []) + Opened(e, n)
  {
  }

  lemma SpansStayRight(entries: seq<Entry>, n: nat, g: Groups, k: nat)
    requires n < |entries| && Inv(entries, n, g) && k < |Flush(Step(g, entries[n], n)).spans|
    ensures IsSpan(entries, n + 1, Flush(Step(g, entries[n], n)).spans[k])
  {
    var e, before := entries[n], Flush(g).spans;
    StepSpans(g, e, n);
    if k < |g.spans| {
      assert before[k] == g.spans[k];
      ClosedSpanStays(entries, n, g.spans[k]);
    } else if k < |before| {
      assert before[k] == g.current.value;
      OpenSpanMoves(entries, n, g.current.value);
    }
  }

  lemma SpansStayInOrder(entries: seq<Entry>, n: nat, g: Groups, k: nat, m: nat)
    requires n < |entries| && Inv(entries, n, g) && k < m < |Flush(Step(g, entries[n], n)).spans|
    ensures var after := Flush(Step(g, entries[n], n)).spans; after[k].stop <= after[m].begin
  {
    var e, before := entries[n], Flush(g).spans;
    StepSpans(g, e, n);
    var after := Flush(Step(g, e, n)).spans;
    assert after[k] == before[k];
    if m < |before| {
      assert before[k].stop <= before[m].begin == after[m].begin;
    } else {
      assert after[m].begin == n;
      assert IsSpan(entries, n, before[k]);
    }
  }

  lemma SpansOwn(entries: seq<Entry>, n: nat, g: Groups, i: nat)
    requires n < |entries| && Inv(entries, n, g)
    ensures var e, after := entries[n], Flush(Step(g, entries[n], n)).spans;
      if i != n then Owned(after, i) <==> Owned(Flush(g).spans, i)
      else Owned(after, i) <==>
        EventOf(e) == "command_begin" || (g.current.Some? && (EventOf(e) == "command_end" || StreamLike(e)))
  {
    var e, before := entries[n], Flush(g).spans;
    StepSpans(g, e, n);
    var after := Flush(Step(g, e, n)).spans;
    forall k | 0 <= k < |g.spans| ensures after[k] == before[k] && !Owns(after[k], n) {
      assert before[k] == g.spans[k];
      ClosedSpanStays(entries, n, g.spans[k]);
    }
    if g.current.Some? {
      assert before[|g.spans|] == g.current.value && after[|g.spans|] == Moved(g.current.value, e, n);
      OpenSpanMoves(entries, n, g.current.value);
    }
    if EventOf(e) == "command_begin" {
      assert after[|before|] == Span(n, [], None, n + 1);
    }
    if i != n {
      OwnedStep(before, after, i);
    }
  }

  lemma OwnedStep(before: seq<Span>, after: seq<Span>, i: nat)
    requires |before| <= |after|
    requires forall k :: 0 <= k < |before| ==> Owns(after[k], i) == Owns(before[k], i)
    requires forall k :: |before| <= k < |after| ==> !Owns(after[k], i)
    ensures Owned(after, i) <==> Owned(before, i)
  {
  }

  lemma {:induction false} InvStarts(entries: seq<Entry>, n: nat)
    requires n == 0
    ensures Inv(entries, n, Grouped(entries, n))
  {
    assert Grouped(entries, 0) == Groups(None, [], []);
  }

  lemma GroupedSnoc(entries: seq<Entry>, n: nat)
    requires n < |entries|
    ensures Grouped(entries, n + 1) == Step(Grouped(entries, n), entries[n], n)
  {
  }

  lemma {:induction false} GroupedInv(entries: seq<Entry>, n: nat)
    requires n <= |entries|
    ensures Inv(entries, n, Grouped(entries, n))
  {
    InvStarts(entries, 0);
    for k := 0 to n
      invariant Inv(entries, k, Grouped(entries, k))
    {
      NextInv(entries, k, k + 1);
    }
  }

  lemma {:induction false} NextInv(entries: seq<Entry>, n: nat, m: nat)
    requires n < |entries| && m == n + 1 && Inv(entries, n, Grouped(entries, n))
    ensures Inv(entries, m, Grouped(entries, m))
  {
    GroupedSnoc(entries, n);
    StepKeepsInv(entries, n, Grouped(entries, n), m, Grouped(entries, m));
  }

  lemma StepKeepsInv(entries: seq<Entry>, n: nat, g: Groups, m: nat, h: Groups)
    requires n < |entries| && Inv(entries, n, g) && m == n + 1 && h == Step(g, entries[n], n)
    ensures Inv(entries, m, h)
  {
    var e := entries[n];
    var before, after := Flush(g).spans, Flush(h).spans;
    SpansStep(entries, n, g);
    forall i: nat ensures i != n ==> (Owned(after, i) <==> Owned(before, i)) {
      SpansOwn(entries, n, g, i);
    }
    SpansOwn(entries, n, g, n);
    IncreasingSnoc(g.events, n);
    EventsOf(g, e, n);
    EventsStep(entries, n, before, after, g.events, h.events);
  }

  lemma EventsOf(g: Groups, e: Entry, n: nat)
    ensures Step(g, e, n).events ==
      if EventOf(e) == "command_begin" || (g.current.Some? && (EventOf(e) == "command_end" || StreamLike(e))) || Blank(e)
      then g.events else g.events + [n]
  {
  }

  lemma SpansStep(entries: seq<Entry>, n: nat, g: Groups)
    requires n < |entries| && Inv(entries, n, g)
    ensures var h := Step(g, entries[n], n);
      && (forall k :: 0 <= k < |Flush(h).spans| ==> IsSpan(entries, n + 1, Flush(h).spans[k]))
      && (forall k, l :: 0 <= k < l < |Flush(h).spans| ==> Flush(h).spans[k].stop <= Flush(h).spans[l].begin)
      && (forall k :: 0 <= k < |h.spans| ==> h.spans[k].stop < n + 1)
      && (h.current.Some? ==> h.current.value.stop == n + 1)
  {
    var after := Flush(Step(g, entries[n], n)).spans;
    forall k | 0 <= k < |after| ensures IsSpan(entries, n + 1, after[k]) {
      SpansStayRight(entries, n, g, k);
    }
    forall k, l | 0 <= k < l < |after| ensures after[k].stop <= after[l].begin {
      SpansStayInOrder(entries, n, g, k, l);
    }
  }

  lemma EventsStep(
    entries: seq<Entry>, n: nat, before: seq<Span>, after: seq<Span>, events: seq<nat>, events2: seq<nat>)
    requires n < |entries|
    requires forall i: nat :: i in events <==> i < n && !Owned(before, i) && !Blank(entries[i])
    requires forall i: nat :: i != n ==> (Owned(after, i) <==> Owned(before, i))
    requires events2 == if !Owned(after, n) && !Blank(entries[n]) then events + [n] else events
    ensures forall i: nat :: i in events2 <==> i < n + 1 && !Owned(after, i) && !Blank(entries[i])
  {
  }

  /** The finished grouping of a whole log. */
  function GroupingOf(entries: seq<Entry>): Groups {
    Flush(Grouped(entries, |entries|))
  }

  lemma GroupingIsRight(entries: seq<Entry>)
    ensures IsGrouping(entries, |entries|, GroupingOf(entries).spans, GroupingOf(entries).events)
  {
    GroupedInv(entries, |entries|);
  }

  /* ---- the consequences ---- */

  /** Every entry that is not blank is in exactly one place: one span, or the events. */
  lemma NothingLostOrDoubled(entries: seq<Entry>, spans: seq<Span>, events: seq<nat>, i: nat)
    requires IsGrouping(entries, |entries|, spans, events) && i < |entries|
    ensures !Blank(entries[i]) ==> (i in events) != Owned(spans, i)
    ensures i in events ==> !Owned(spans, i)
    ensures forall k, m :: 0 <= k < m < |spans| ==> !(Owns(spans[k], i) && Owns(spans[m], i))
    ensures forall k :: 0 <= k < |spans| && i in spans[k].streams ==> i != spans[k].begin && spans[k].end != Some(i)
    ensures forall k, x, y :: 0 <= k < |spans| && 0 <= x < y < |spans[k].streams| ==>
      spans[k].streams[x] != spans[k].streams[y]
  {
  }

  /** Within a span: begin, then streams, then end. */
  lemma SpanIsInOrder(entries: seq<Entry>, n: nat, s: Span, i: nat)
    requires IsSpan(entries, n, s) && i in s.streams
    ensures s.begin < i && (s.end.Some? ==> i < s.end.value)
  {
  }

  /** A span owns nothing after the begin of the next. */
  lemma SpansDoNotInterleave(
    entries: seq<Entry>, spans: seq<Span>, events: seq<nat>, k: nat, m: nat, i: nat, j: nat)
    requires IsGrouping(entries, |entries|, spans, events) && k < m < |spans|
    requires Owns(spans[k], i) && Owns(spans[m], j)
    ensures i < j
  {
    assert spans[k].stop <= spans[m].begin;
    SpansApart(entries, |entries|, spans[k], spans[m], i, j);
  }

  lemma SpansApart(entries: seq<Entry>, n: nat, s: Span, t: Span, i: nat, j: nat)
    requires IsSpan(entries, n, s) && IsSpan(entries, n, t) && s.stop <= t.begin && Owns(s, i) && Owns(t, j)
    ensures i < j
  {
  }

  lemma {:induction false} IncreasingIsUnique(a: seq<nat>, b: seq<nat>)
    requires Increasing(a) && Increasing(b) && forall i: nat :: i in a <==> i in b
    ensures a == b
    decreases |a|
  {
    assert b != [] ==> b[0] in b;
    if a != [] {
      assert a[0] in a;
      var i :| 0 <= i < |b| && b[i] == a[0];
      var j :| 0 <= j < |a| && a[j] == b[0];
      assert a[0] == b[0];
      TailMembers(a);
      TailMembers(b);
      IncreasingIsUnique(a[1..], b[1..]);
      assert a == [a[0]] + a[1..] && b == [b[0]] + b[1..];
    }
  }

  lemma TailMembers(a: seq<nat>)
    requires Increasing(a) && a != []
    ensures Increasing(a[1..]) && forall i: nat :: i in a[1..] <==> i in a && i != a[0]
  {
    assert a == [a[0]] + a[1..];
    forall i: nat | i in a[1..] ensures i != a[0] {
      var k :| 0 <= k < |a[1..]| && a[1..][k] == i;
      assert a[k + 1] == i;
    }
  }

  lemma SameBeginSameSpan(entries: seq<Entry>, n: nat, s: Span, t: Span)
    requires IsSpan(entries, n, s) && IsSpan(entries, n, t) && s.begin == t.begin
    ensures s == t
  {
    IncreasingIsUnique(s.streams, t.streams);
  }

  function Begins(spans: seq<Span>): seq<nat> {
    seq(|spans|, k requires 0 <= k < |spans| => spans[k].begin)
  }

  /** The spans begin exactly at the command_begin lines. */
  lemma BeginsAreCommands(entries: seq<Entry>, spans: seq<Span>, events: seq<nat>)
    requires IsGrouping(entries, |entries|, spans, events)
    ensures forall i: nat :: i in Begins(spans) <==> i < |entries| && EventOf(entries[i]) == "command_begin"
  {
    var begins := Begins(spans);
    forall i: nat ensures i in begins <==> i < |entries| && EventOf(entries[i]) == "command_begin" {
      if i in begins {
        var k :| 0 <= k < |begins| && begins[k] == i;
        assert IsSpan(entries, |entries|, spans[k]);
      }
      if i < |entries| && EventOf(entries[i]) == "command_begin" {
        assert Owned(spans, i);
        var k :| 0 <= k < |spans| && Owns(spans[k], i);
        BeginIsOwnedAsBegin(entries, |entries|, spans[k], i);
        assert begins[k] == i;
      }
    }
  }

  lemma BeginsIncrease(entries: seq<Entry>, spans: seq<Span>, events: seq<nat>)
    requires IsGrouping(entries, |entries|, spans, events)
    ensures Increasing(Begins(spans))
  {
    var begins := Begins(spans);
    forall k, m | 0 <= k < m < |begins| ensures begins[k] < begins[m] {
      assert IsSpan(entries, |entries|, spans[k]) && spans[k].stop <= spans[m].begin;
    }
  }

  lemma BeginIsOwnedAsBegin(entries: seq<Entry>, n: nat, s: Span, i: nat)
    requires IsSpan(entries, n, s) && Owns(s, i) && i < n && EventOf(entries[i]) == "command_begin"
    ensures i == s.begin
  {
  }

  /** The grouping is determined by the log: only one list of spans and one list of events meet the description. */
  lemma GroupingIsUnique(
    entries: seq<Entry>, spans: seq<Span>, events: seq<nat>, spans2: seq<Span>, events2: seq<nat>)
    requires IsGrouping(entries, |entries|, spans, events) && IsGrouping(entries, |entries|, spans2, events2)
    ensures spans == spans2 && events == events2
  {
    BeginsIncrease(entries, spans, events);
    BeginsAreCommands(entries, spans, events);
    BeginsIncrease(entries, spans2, events2);
    BeginsAreCommands(entries, spans2, events2);
    IncreasingIsUnique(Begins(spans), Begins(spans2));
    assert |spans| == |Begins(spans)| == |spans2|;
    forall k | 0 <= k < |spans| ensures spans[k] == spans2[k] {
      assert Begins(spans)[k] == Begins(spans2)[k];
      SameBeginSameSpan(entries, |entries|, spans[k], spans2[k]);
    }
    IncreasingIsUnique(events, events2);
  }

  /* ---- the program ---- */

  ghost predicate InRange(s: Span, n: nat) {
    s.begin < n && (forall j :: j in s.streams ==> j < n) && (s.end.Some? ==> s.end.value < n)
  }

  ghost function At(entries: seq<Entry>, places: seq<nat>): seq<Entry>
    requires forall j :: j in places ==> j < |entries|
  {
    seq(|places|, k requires 0 <= k < |places| => assert places[k] in places; entries[places[k]])
  }

  ghost function BlockAt(entries: seq<Entry>, s: Span): Block
    requires InRange(s, |entries|)
  {
    Block(entries[s.begin], At(entries, s.streams), if s.end.Some? then Some(entries[s.end.value]) else None)
  }

  ghost predicate Shows(entries: seq<Entry>, blocks: seq<Block>, spans: seq<Span>) {
    |blocks| == |spans|
    && forall k :: 0 <= k < |spans| ==> InRange(spans[k], |entries|) && blocks[k] == BlockAt(entries, spans[k])
  }

  ghost predicate ShowsState(
    entries: seq<Entry>, g: Groups, current: Option<Block>, blocks: seq<Block>, events: seq<Entry>)
  {
    && Shows(entries, blocks, g.spans)
    && current.Some? == g.current.Some?
    && (current.Some? ==> InRange(g.current.value, |entries|) && current.value == BlockAt(entries, g.current.value))
    && (forall i :: i in g.events ==> i < |entries|) && events == At(entries, g.events)
  }

  lemma ShowsFlush(
    entries: seq<Entry>, g: Groups, current: Option<Block>, blocks: seq<Block>, events: seq<Entry>)
    requires ShowsState(entries, g, current, blocks, events)
    ensures ShowsState(entries, Flush(g), None, if current.Some? then blocks + [current.value] else blocks, events)
  {
  }

  lemma ShowsBegin(
    entries: seq<Entry>, g: Groups, blocks: seq<Block>, events: seq<Entry>, i: nat)
    requires ShowsState(entries, g, None, blocks, events) && i < |entries|
    ensures ShowsState(
      entries, g.(current := Some(Span(i, [], None, i + 1))), Some(Block(entries[i], [], None)), blocks, events)
  {
  }

  lemma ShowsEnd(
    entries: seq<Entry>, g: Groups, current: Block, blocks: seq<Block>, events: seq<Entry>, i: nat)
    requires ShowsState(entries, g, Some(current), blocks, events) && i < |entries|
    ensures ShowsState(
      entries, g.(current := Some(g.current.value.(end := Some(i)))), Some(current.(end := Some(entries[i]))),
      blocks, events)
  {
  }

  lemma ShowsStream(
    entries: seq<Entry>, g: Groups, current: Block, blocks: seq<Block>, events: seq<Entry>, i: nat)
    requires ShowsState(entries, g, Some(current), blocks, events) && i < |entries|
    ensures ShowsState(
      entries, g.(current := Some(g.current.value.(stop := i + 1, streams := g.current.value.streams + [i]))),
      Some(current.(streams := current.streams + [entries[i]])), blocks, events)
  {
  }

  lemma ShowsEvent(
    entries: seq<Entry>, g: Groups, current: Option<Block>, blocks: seq<Block>, events: seq<Entry>, i: nat)
    requires ShowsState(entries, g, current, blocks, events) && i < |entries|
    ensures ShowsState(entries, g.(events := g.events + [i]), current, blocks, events + [entries[i]])
  {
  }

  lemma ShowsLonger(
    entries: seq<Entry>, g: Groups, current: Option<Block>, blocks: seq<Block>, events: seq<Entry>, stop: nat)
    requires ShowsState(entries, g, current, blocks, events)
    ensures ShowsState(
      entries, g.(current := if g.current.Some? then Some(g.current.value.(stop := stop)) else None),
      current, blocks, events)
  {
  }

  /** The blocks and events shown are the entries at the places of the log's grouping. */
  method GroupEntries(entries: seq<Entry>) returns (blocks: seq<Block>, events: seq<Entry>)
    ensures IsGrouping(entries, |entries|, GroupingOf(entries).spans, GroupingOf(entries).events)
    ensures Shows(entries, blocks, GroupingOf(entries).spans)
    ensures (forall i :: i in GroupingOf(entries).events ==> i < |entries|)
    ensures events == At(entries, GroupingOf(entries).events)
  {
    var current: Option<Block> := None;
    blocks, events := [], [];
    ghost var g := Groups(None, [], []);
    for i := 0 to |entries|
      invariant g == Grouped(entries, i)
      invariant ShowsState(entries, g, current, blocks, events)
    {
      var entry := entries[i];
      var event := EventOf(entry);
      ghost var before := g;
      g := Step(before, entry, i);
      if event == "command_begin" {
        ShowsFlush(entries, before, current, blocks, events);
        if current.Some? {
          blocks := blocks + [current.value];
        }
        current := Some(Block(entry, [], None));
        ShowsBegin(entries, Flush(before), blocks, events, i);
      } else if event == "command_end" {
        if current.Some? {
          ShowsEnd(entries, before, current.value, blocks, events, i);
          current := Some(current.value.(end := Some(entry)));
          ShowsFlush(
            entries, before.(current := Some(before.current.value.(end := Some(i)))), current, blocks, events);
          blocks := blocks + [current.value];
          current := None;
          continue;
        }
        ShowsEvent(entries, before, current, blocks, events, i);
        events := events + [entry];
      } else if event == "" {
        if FieldOf(entry, "msg") != "" || FieldOf(entry, "stream") != "" {
          if current.Some? {
            ShowsStream(entries, before, current.value, blocks, events, i);
            current := Some(current.value.(streams := current.value.streams + [entry]));
            continue;
          }
        }
        ShowsLonger(entries, before, current, blocks, events, i + 1);
        if entry.raw != "" {
          ghost var longer :=
            before.(current := if before.current.Some? then Some(before.current.value.(stop := i + 1)) else None);
          ShowsEvent(entries, longer, current, blocks, events, i);
          events := events + [entry];
        }
      } else {
        ShowsFlush(entries, before, current, blocks, events);
        if current.Some? {
          blocks := blocks + [current.value];
          current := None;
        }
        ShowsEvent(entries, Flush(before), current, blocks, events, i);
        events := events + [entry];
      }
    }
    ShowsFlush(entries, g, current, blocks, events);
    if current.Some? {
      blocks := blocks + [current.value];
    }
    GroupingIsRight(entries);
  }
}
