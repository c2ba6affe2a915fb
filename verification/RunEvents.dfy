/** The event accumulator of a polled run (replay/use-run-events.ts): pages arrive, repeated and out
    of order, and are folded into one sorted list without duplicates. */
module RunEvents {
  import opened Prelude
  import opened Sorting
  import opened ReplayOrder

  datatype Cursor = Cursor(traceSeq: int, logSeq: int)

  /** One response. An older server sends `nextSince` only. */
  datatype Page = Page(nextCursor: Option<Cursor>, nextSince: int, events: seq<AgentEvent>)

  datatype State = State(cursor: Cursor, seen: set<string>, events: seq<AgentEvent>, lastEventAt: Option<int>)

  const START := State(Cursor(-1, -1), {}, [], None)

  function Next(page: Page): Cursor {
    page.nextCursor.GetOr(Cursor(page.nextSince, page.nextSince))
  }

  function Fresh(seen: set<string>, events: seq<AgentEvent>): (r: seq<AgentEvent>)
    ensures forall e :: e in r <==> e in events && e.id !in seen
  {
    Filter(events, (e: AgentEvent) => e.id !in seen)
  }

  function Ids(events: seq<AgentEvent>): set<string> {
    set e | e in events :: e.id
  }

  /** The receipt time, or failing that the producer time, if it can be read. */
  function Receipt(e: AgentEvent): Option<int> {
    (if e.receivedAt.Absent? then e.ts else e.receivedAt).Finite()
  }

  /** The newest receipt among `events`, or `now` when none can be read. */
  ghost predicate IsNewest(events: seq<AgentEvent>, now: int, t: int) {
    if exists e :: e in events && Receipt(e).Some? then
      (exists e :: e in events && Receipt(e) == Some(t)) && forall e :: e in events && Receipt(e).Some? ==>
        Receipt(e).value <= t
    else t == now
  }

  /** The events of the page that were not seen before join the list. */
  ghost predicate EventsStep(cmp: (string, string) -> int, s: State, page: Page, s': State) {
    var arrived := Fresh(s.seen, page.events);
    && s'.seen == s.seen + Ids(page.events)
    && s'.events == if arrived == [] then s.events else SortAgentEvents(cmp, s.events + arrived)
  }

  ghost predicate CursorStep(s: State, page: Page, s': State) {
    && s'.cursor.traceSeq == Max(s.cursor.traceSeq, Next(page).traceSeq)
    && s'.cursor.logSeq == Max(s.cursor.logSeq, Next(page).logSeq)
  }

  /** Fresh events stamp the stall mark; the first batch is a backlog and is stamped with its newest
      receipt, though never ahead of the clock. */
  ghost predicate StallStep(s: State, page: Page, now: int, s': State) {
    var arrived := Fresh(s.seen, page.events);
    if arrived == [] then s'.lastEventAt == s.lastEventAt
    else if s.seen != {} then s'.lastEventAt == Some(now)
    else exists t :: IsNewest(arrived, now, t) && s'.lastEventAt == Some(Min(t, now))
  }

  /** What one page does to the state. */
  ghost predicate Steps(cmp: (string, string) -> int, s: State, page: Page, now: int, s': State) {
    CursorStep(s, page, s') && EventsStep(cmp, s, page, s') && StallStep(s, page, now, s')
  }

  lemma {:induction false} FreshIds(seen: set<string>, events: seq<AgentEvent>)
    ensures seen + Ids(Fresh(seen, events)) == seen + Ids(events)
    ensures Fresh(seen, events) == [] ==> seen + Ids(events) == seen
  {
    forall e | e in events && e.id !in seen ensures e.id in Ids(Fresh(seen, events)) {
      assert e in Fresh(seen, events);
    }
  }

  method NewestReceipt(arrived: seq<AgentEvent>, now: int) returns (newest: int)
    ensures IsNewest(arrived, now, newest)
  {
    var best: Option<int> := None;
    for i := 0 to |arrived|
      invariant best.None? ==> forall e :: e in arrived[..i] ==> Receipt(e).None?
      invariant best.Some? ==> exists e :: e in arrived[..i] && Receipt(e) == best
      invariant best.Some? ==> forall e :: e in arrived[..i] && Receipt(e).Some? ==> Receipt(e).value <= best.value
    {
      assert arrived[..i + 1] == arrived[..i] + [arrived[i]];
      var r := Receipt(arrived[i]);
      if r.Some? && (best.None? || best.value < r.value) { best := r; }
    }
    assert arrived[..|arrived|] == arrived;
    newest := best.GetOr(now);
  }

  class RunEventsHook {
    var cursor: Cursor
    var seen: set<string>
    var events: seq<AgentEvent>
    var lastEventAt: Option<int>

    function Snapshot(): State
      reads this
    {
      State(cursor, seen, events, lastEventAt)
    }

    constructor ()
      ensures Snapshot() == START
    {
      cursor, seen, events, lastEventAt := Cursor(-1, -1), {}, [], None;
    }

    /** The effect that runs when the run id changes. */
    method Reset()
      modifies this
      ensures Snapshot() == START
    {
      cursor, seen, events, lastEventAt := Cursor(-1, -1), {}, [], None;
    }

    /** The effect that runs when a response arrives. */
    method OnPage(cmp: (string, string) -> int, page: Page, now: int)
      modifies this
      ensures Steps(cmp, old(Snapshot()), page, now, Snapshot())
    {
      var next := if page.nextCursor.Some? then page.nextCursor.value else Cursor(page.nextSince, page.nextSince);
      cursor := Cursor(Max(cursor.traceSeq, next.traceSeq), Max(cursor.logSeq, next.logSeq));
      var arrived := Fresh(seen, page.events);
      FreshIds(seen, page.events);
      if arrived == [] { return; }
      var firstBatch := seen == {};
      if firstBatch {
        var newest := NewestReceipt(arrived, now);
        lastEventAt := Some(Min(newest, now));
      } else {
        lastEventAt := Some(now);
      }
      MarkSeen(arrived);
      events := SortAgentEvents(cmp, events + arrived);
    }

    method MarkSeen(arrived: seq<AgentEvent>)
      modifies this`seen
      ensures seen == old(seen) + Ids(arrived)
    {
      for i := 0 to |arrived|
        invariant seen == old(seen) + Ids(arrived[..i])
      {
        assert arrived[..i + 1] == arrived[..i] + [arrived[i]];
        seen := seen + {arrived[i].id};
      }
      assert arrived[..|arrived|] == arrived;
    }
  }

  // ---------- Runs ----------

  datatype Arrival = Arrival(page: Page, now: int)

  ghost predicate StepAt(cmp: (string, string) -> int, arrivals: seq<Arrival>, trace: seq<State>, i: nat)
    requires i < |arrivals| && |trace| == |arrivals| + 1
  {
    Steps(cmp, trace[i], arrivals[i].page, arrivals[i].now, trace[i + 1])
  }

  /** `trace` is a run of the accumulator over `arrivals`, starting from nothing. */
  ghost predicate IsRun(cmp: (string, string) -> int, arrivals: seq<Arrival>, trace: seq<State>) {
    && |trace| == |arrivals| + 1
    && trace[0] == START
    && forall i :: 0 <= i < |arrivals| ==> StepAt(cmp, arrivals, trace, i)
  }

  function AsSet(events: seq<AgentEvent>): set<AgentEvent> {
    set e | e in events
  }

  /** Every event delivered so far. */
  function Delivered(arrivals: seq<Arrival>): set<AgentEvent> {
    if arrivals == [] then {}
    else Delivered(arrivals[..|arrivals| - 1]) + AsSet(arrivals[|arrivals| - 1].page.events)
  }

  /** No page repeats an id. */
  ghost predicate DistinctIds(events: seq<AgentEvent>) {
    forall i, j :: 0 <= i < j < |events| ==> events[i].id != events[j].id
  }

  /** An id names one event. */
  ghost predicate IdsIdentify(events: set<AgentEvent>) {
    forall e, f :: e in events && f in events && e.id == f.id ==> e == f
  }

  /** `events` holds exactly the elements of `delivered`, each once. */
  ghost predicate Lists(events: seq<AgentEvent>, delivered: set<AgentEvent>) {
    multiset(events) == multiset(delivered)
  }

  ghost function IdsOf(delivered: set<AgentEvent>): set<string> {
    set e | e in delivered :: e.id
  }

  ghost predicate Accumulated(cmp: (string, string) -> int, s: State, delivered: set<AgentEvent>) {
    && Lists(s.events, delivered)
    && s.seen == IdsOf(delivered)
    && Sorted(EventLe(cmp), s.events)
  }

  lemma {:induction false} DistinctIsSet(events: seq<AgentEvent>)
    ensures Distinct(events) <==> multiset(events) == multiset(AsSet(events))
  {
    DistinctByCount(events);
    if Distinct(events) {
      forall e ensures multiset(events)[e] == multiset(AsSet(events))[e] {
        assert multiset(events)[e] > 0 <==> e in events;
      }
    }
  }

  lemma {:induction false} DistinctEvents(events: seq<AgentEvent>, all: set<AgentEvent>)
    requires IdsIdentify(all) && AsSet(events) <= all
    ensures Distinct(events) <==> DistinctIds(events)
  {
    assert forall i :: 0 <= i < |events| ==> events[i] in AsSet(events);
  }

  lemma {:induction false} SplitDelivered(seen: set<string>, events: seq<AgentEvent>, delivered: set<AgentEvent>)
    requires seen == IdsOf(delivered)
    requires IdsIdentify(delivered + AsSet(events))
    ensures delivered + AsSet(events) == delivered + AsSet(Fresh(seen, events))
    ensures delivered !! AsSet(Fresh(seen, events))
  {
  }

  lemma {:induction false} AddExact(events: seq<AgentEvent>, arrived: seq<AgentEvent>, delivered: set<AgentEvent>)
    requires multiset(events) == multiset(delivered) + multiset(arrived)
    requires delivered !! AsSet(arrived)
    ensures Lists(events, delivered + AsSet(arrived)) <==> Distinct(arrived)
  {
    assert multiset(delivered + AsSet(arrived)) == multiset(delivered) + multiset(AsSet(arrived));
    assert Lists(events, delivered + AsSet(arrived)) <==> multiset(arrived) == multiset(AsSet(arrived)) by {
      assert multiset(arrived) == multiset(events) - multiset(delivered);
      assert multiset(AsSet(arrived)) == multiset(delivered + AsSet(arrived)) - multiset(delivered);
    }
    DistinctIsSet(arrived);
  }

  /** One page keeps the list exact if and only if its fresh events have different ids. */
  lemma {:induction false} StepExact(cmp: (string, string) -> int, s: State, page: Page, s': State,
      delivered: set<AgentEvent>)
    requires Accumulated(cmp, s, delivered) && EventsStep(cmp, s, page, s')
    requires IdsIdentify(delivered + AsSet(page.events))
    ensures Lists(s'.events, delivered + AsSet(page.events)) <==> DistinctIds(Fresh(s.seen, page.events))
  {
    var arrived := Fresh(s.seen, page.events);
    assert delivered + AsSet(page.events) == delivered + AsSet(arrived) && delivered !! AsSet(arrived) by {
      SplitDelivered(s.seen, page.events, delivered);
    }
    assert multiset(s'.events) == multiset(delivered) + multiset(arrived);
    AddExact(s'.events, arrived, delivered);
    DistinctEvents(arrived, delivered + AsSet(page.events));
  }

  lemma {:induction false} IdsOfUnion(delivered: set<AgentEvent>, events: seq<AgentEvent>)
    ensures IdsOf(delivered + AsSet(events)) == IdsOf(delivered) + Ids(events)
  {
  }

  lemma {:induction false} SortedEvents(cmp: (string, string) -> int, events: seq<AgentEvent>)
    requires Collates(cmp)
    ensures Sorted(EventLe(cmp), SortAgentEvents(cmp, events))
  {
    EventOrderIsTotal(cmp);
    SortIsSorted(EventLe(cmp), events);
  }

  lemma {:induction false} RunPrefix(cmp: (string, string) -> int, arrivals: seq<Arrival>, trace: seq<State>)
    requires IsRun(cmp, arrivals, trace) && arrivals != []
    ensures IsRun(cmp, arrivals[..|arrivals| - 1], trace[..|arrivals|])
  {
    var a, t := arrivals[..|arrivals| - 1], trace[..|arrivals|];
    forall i | 0 <= i < |a| ensures StepAt(cmp, a, t, i) {
      assert StepAt(cmp, arrivals, trace, i);
    }
  }

  // ---------- Whole runs ----------

  /** No page repeats an id that is new to the run. */
  ghost predicate NewIdsDistinct(arrivals: seq<Arrival>) {
    arrivals == [] ||
    var n := |arrivals| - 1;
    && NewIdsDistinct(arrivals[..n])
    && DistinctIds(Fresh(IdsOf(Delivered(arrivals[..n])), arrivals[n].page.events))
  }

  /** The list and the ids cover what was delivered. */
  ghost predicate Covers(s: State, delivered: set<AgentEvent>) {
    AsSet(s.events) == delivered && s.seen == IdsOf(delivered)
  }

  lemma {:induction false} SortedAsSet(cmp: (string, string) -> int, events: seq<AgentEvent>)
    ensures AsSet(SortAgentEvents(cmp, events)) == AsSet(events)
    ensures Distinct(SortAgentEvents(cmp, events)) <==> Distinct(events)
  {
    SortMembers(EventLe(cmp), events);
    SortDistinct(EventLe(cmp), events);
  }

  lemma {:induction false} JoinDistinct(a: seq<AgentEvent>, b: seq<AgentEvent>)
    requires AsSet(a) !! AsSet(b)
    ensures AsSet(a + b) == AsSet(a) + AsSet(b)
    ensures Distinct(a + b) <==> Distinct(a) && Distinct(b)
  {
    var s := a + b;
    if Distinct(s) {
      forall i, j | 0 <= i < j < |b| ensures b[i] != b[j] {
        assert b[i] == s[|a| + i] && b[j] == s[|a| + j];
      }
      forall i, j | 0 <= i < j < |a| ensures a[i] != a[j] {
        assert a[i] == s[i] && a[j] == s[j];
      }
    }
    if Distinct(a) && Distinct(b) {
      forall i, j | 0 <= i < j < |s| ensures s[i] != s[j] {
        assert i < |a| <= j ==> s[i] in AsSet(a) && s[j] in AsSet(b);
      }
    }
  }

  /** A page keeps the list free of repeats exactly when it was and the new ids of the page differ. */
  lemma {:induction false} StepCovers(cmp: (string, string) -> int, s: State, page: Page, s': State,
      delivered: set<AgentEvent>)
    requires Covers(s, delivered) && EventsStep(cmp, s, page, s')
    requires IdsIdentify(delivered + AsSet(page.events))
    ensures Covers(s', delivered + AsSet(page.events))
    ensures Distinct(s'.events) <==> Distinct(s.events) && DistinctIds(Fresh(s.seen, page.events))
  {
    var arrived := Fresh(s.seen, page.events);
    SplitDelivered(s.seen, page.events, delivered);
    IdsOfUnion(delivered, page.events);
    JoinDistinct(s.events, arrived);
    SortedAsSet(cmp, s.events + arrived);
    DistinctEvents(arrived, delivered + AsSet(page.events));
  }

  lemma {:induction false} RunCovers(cmp: (string, string) -> int, arrivals: seq<Arrival>, trace: seq<State>)
    requires IsRun(cmp, arrivals, trace) && IdsIdentify(Delivered(arrivals))
    ensures Covers(trace[|arrivals|], Delivered(arrivals))
    ensures Distinct(trace[|arrivals|].events) <==> NewIdsDistinct(arrivals)
  {
    if arrivals != [] {
      var n := |arrivals| - 1;
      RunPrefix(cmp, arrivals, trace);
      RunCovers(cmp, arrivals[..n], trace[..n + 1]);
      assert StepAt(cmp, arrivals, trace, n);
      StepCovers(cmp, trace[n], arrivals[n].page, trace[n + 1], Delivered(arrivals[..n]));
    }
  }

  /** Over a whole run the list holds every delivered event just once if and only if no page repeats
      an id that is new to it. */
  lemma {:induction false} RunExact(cmp: (string, string) -> int, arrivals: seq<Arrival>, trace: seq<State>)
    requires IsRun(cmp, arrivals, trace) && IdsIdentify(Delivered(arrivals))
    ensures Lists(trace[|arrivals|].events, Delivered(arrivals)) <==> NewIdsDistinct(arrivals)
  {
    RunCovers(cmp, arrivals, trace);
    DistinctIsSet(trace[|arrivals|].events);
  }

  lemma {:induction false} RunSorted(cmp: (string, string) -> int, arrivals: seq<Arrival>, trace: seq<State>)
    requires Collates(cmp) && IsRun(cmp, arrivals, trace)
    ensures Sorted(EventLe(cmp), trace[|arrivals|].events)
  {
    if arrivals != [] {
      var n := |arrivals| - 1;
      RunPrefix(cmp, arrivals, trace);
      RunSorted(cmp, arrivals[..n], trace[..n + 1]);
      assert StepAt(cmp, arrivals, trace, n);
      SortedEvents(cmp, trace[n].events + Fresh(trace[n].seen, arrivals[n].page.events));
    }
  }

  /** What a run leaves behind: the delivered events, sorted, each once, and their ids. */
  lemma {:induction false} RunAccumulates(cmp: (string, string) -> int, arrivals: seq<Arrival>, trace: seq<State>)
    requires Collates(cmp) && IsRun(cmp, arrivals, trace)
    requires NewIdsDistinct(arrivals) && IdsIdentify(Delivered(arrivals))
    ensures Accumulated(cmp, trace[|arrivals|], Delivered(arrivals))
  {
    RunExact(cmp, arrivals, trace);
    RunCovers(cmp, arrivals, trace);
    RunSorted(cmp, arrivals, trace);
  }

  /** Paging independence: however the same events were split into pages, repeated or reordered, the
      list shown is the same, provided no two of them compare equal. */
  lemma {:induction false} PagingIndependence(cmp: (string, string) -> int, arrivals: seq<Arrival>, trace: seq<State>,
      arrivals': seq<Arrival>, trace': seq<State>)
    requires Collates(cmp) && IsRun(cmp, arrivals, trace) && IsRun(cmp, arrivals', trace')
    requires NewIdsDistinct(arrivals) && NewIdsDistinct(arrivals')
    requires Delivered(arrivals) == Delivered(arrivals')
    requires IdsIdentify(Delivered(arrivals)) && NoTies(EventLe(cmp), Delivered(arrivals))
    ensures trace[|arrivals|].events == trace'[|arrivals'|].events
    ensures trace[|arrivals|].seen == trace'[|arrivals'|].seen
    ensures Sorted(EventLe(cmp), trace[|arrivals|].events)
    ensures Lists(trace[|arrivals|].events, Delivered(arrivals))
  {
    RunAccumulates(cmp, arrivals, trace);
    RunAccumulates(cmp, arrivals', trace');
    RunCovers(cmp, arrivals, trace);
    SortedIsUnique(EventLe(cmp), trace[|arrivals|].events, trace'[|arrivals'|].events, Delivered(arrivals));
  }

  // ---------- Ties ----------

  ghost predicate EndsWith(arrivals: seq<Arrival>, trace: seq<State>, delivered: set<AgentEvent>,
      shown: seq<AgentEvent>)
    requires |trace| == |arrivals| + 1
  {
    NewIdsDistinct(arrivals) && Delivered(arrivals) == delivered && trace[|arrivals|].events == shown
  }

  /** Some run that delivers `delivered`, and repeats no new id in a page, ends with this list. */
  ghost predicate CanShow(cmp: (string, string) -> int, delivered: set<AgentEvent>, shown: seq<AgentEvent>) {
    exists arrivals, trace: seq<State> :: IsRun(cmp, arrivals, trace) && EndsWith(arrivals, trace, delivered, shown)
  }

  lemma {:induction false} NewestExists(events: seq<AgentEvent>, now: int) returns (t: int)
    ensures IsNewest(events, now, t)
  {
    t := now;
    if events != [] {
      var e := events[0];
      assert events == [e] + events[1..];
      t := NewestExists(events[1..], now);
      if Receipt(e).Some? {
        t := if exists f :: f in events[1..] && Receipt(f).Some? then Max(t, Receipt(e).value) else Receipt(e).value;
      }
    }
  }

  lemma {:induction false} AllFresh(events: seq<AgentEvent>)
    ensures Fresh({}, events) == events
  {
    if events != [] { AllFresh(events[1..]); }
  }

  /** What a first page leaves behind. */
  function AfterFirst(cmp: (string, string) -> int, page: Page, t: int): State {
    State(Cursor(Max(-1, Next(page).traceSeq), Max(-1, Next(page).logSeq)), Ids(page.events),
          SortAgentEvents(cmp, page.events), if page.events == [] then None else Some(t))
  }

  lemma {:induction false} FirstStep(cmp: (string, string) -> int, arrivals: seq<Arrival>, trace: seq<State>, t: int)
    requires |arrivals| == 1 && |trace| == 2 && trace[0] == START
    requires IsNewest(arrivals[0].page.events, arrivals[0].now, t)
    requires trace[1] == AfterFirst(cmp, arrivals[0].page, Min(t, arrivals[0].now))
    ensures StepAt(cmp, arrivals, trace, 0)
  {
    AllFresh(arrivals[0].page.events);
    assert [] + arrivals[0].page.events == arrivals[0].page.events;
  }

  lemma {:induction false} OneDelivered(arrivals: seq<Arrival>)
    requires |arrivals| == 1
    ensures Delivered(arrivals) == AsSet(arrivals[0].page.events)
    ensures arrivals[..0] == [] && IdsOf(Delivered(arrivals[..0])) == {}
  {
  }

  lemma {:induction false} OneNewIds(arrivals: seq<Arrival>)
    requires |arrivals| == 1 && DistinctIds(arrivals[0].page.events)
    ensures NewIdsDistinct(arrivals)
  {
    OneDelivered(arrivals);
    AllFresh(arrivals[0].page.events);
  }

  lemma {:induction false} OneIsRun(cmp: (string, string) -> int, arrivals: seq<Arrival>, trace: seq<State>)
    requires |arrivals| == 1 && |trace| == 2 && trace[0] == START && StepAt(cmp, arrivals, trace, 0)
    ensures IsRun(cmp, arrivals, trace)
  {
  }

  lemma {:induction false} OneRunShows(cmp: (string, string) -> int, arrivals: seq<Arrival>, trace: seq<State>)
    requires |arrivals| == 1 && |trace| == 2 && trace[0] == START && StepAt(cmp, arrivals, trace, 0)
    requires DistinctIds(arrivals[0].page.events)
    ensures CanShow(cmp, AsSet(arrivals[0].page.events), trace[1].events)
  {
    OneIsRun(cmp, arrivals, trace);
    OneNewIds(arrivals);
    OneDelivered(arrivals);
    assert EndsWith(arrivals, trace, AsSet(arrivals[0].page.events), trace[1].events);
  }

  /** A run of one page shows the page, sorted. */
  lemma {:induction false} OnePage(cmp: (string, string) -> int, page: Page)
    requires DistinctIds(page.events)
    ensures CanShow(cmp, AsSet(page.events), SortAgentEvents(cmp, page.events))
  {
    var t := NewestExists(page.events, 0);
    var arrivals, trace := [Arrival(page, 0)], [START, AfterFirst(cmp, page, Min(t, 0))];
    FirstStep(cmp, arrivals, trace, t);
    OneRunShows(cmp, arrivals, trace);
  }

  lemma {:induction false} AsSequence(s: set<AgentEvent>) returns (r: seq<AgentEvent>)
    ensures AsSet(r) == s && Distinct(r)
  {
    r := [];
    if s != {} {
      var e :| e in s;
      r := AsSequence(s - {e});
      assert forall x :: x in r <==> x in AsSet(r);
      r := [e] + r;
    }
  }

  /** Two events that compare equal, listed either way round. */
  lemma {:induction false} TieShows(cmp: (string, string) -> int, e: AgentEvent, f: AgentEvent, rest: seq<AgentEvent>)
    requires Collates(cmp) && e != f && EventLe(cmp)(e, f) && EventLe(cmp)(f, e) && e !in rest && f !in rest
    ensures SortAgentEvents(cmp, [e, f] + rest) != SortAgentEvents(cmp, [f, e] + rest)
  {
    EventOrderIsTotal(cmp);
    assert EventLe(cmp)(e, e) && EventLe(cmp)(f, f);
    TiesShow(EventLe(cmp), e, f, rest, (x: AgentEvent) => x == e || x == f, [e, f] + rest, [f, e] + rest);
  }

  lemma {:induction false} ListedOnce(delivered: set<AgentEvent>, e: AgentEvent, f: AgentEvent, rest: seq<AgentEvent>)
    requires IdsIdentify(delivered) && e in delivered && f in delivered && e != f
    requires AsSet(rest) == delivered - {e, f} && Distinct(rest)
    ensures AsSet([e, f] + rest) == delivered && DistinctIds([e, f] + rest)
  {
    var s := [e, f] + rest;
    assert forall x :: x in rest <==> x in AsSet(rest);
    JoinDistinct([e, f], rest);
    assert AsSet([e, f]) == {e, f};
    DistinctEvents(s, delivered);
  }

  /** Any set of events that holds two that compare equal can be shown in two ways. */
  lemma {:induction false} TieCanShow(cmp: (string, string) -> int, delivered: set<AgentEvent>, e: AgentEvent,
      f: AgentEvent)
    requires Collates(cmp) && IdsIdentify(delivered) && e in delivered && f in delivered
    requires e != f && EventLe(cmp)(e, f) && EventLe(cmp)(f, e)
    ensures exists a, b :: CanShow(cmp, delivered, a) && CanShow(cmp, delivered, b) && a != b
  {
    var rest := AsSequence(delivered - {e, f});
    assert forall x :: x in rest <==> x in AsSet(rest);
    ListedOnce(delivered, e, f, rest);
    ListedOnce(delivered, f, e, rest);
    OnePage(cmp, Page(None, 0, [e, f] + rest));
    OnePage(cmp, Page(None, 0, [f, e] + rest));
    TieShows(cmp, e, f, rest);
  }

  lemma {:induction false} ShownIsFixed(cmp: (string, string) -> int, delivered: set<AgentEvent>, a: seq<AgentEvent>,
      b: seq<AgentEvent>)
    requires Collates(cmp) && IdsIdentify(delivered) && NoTies(EventLe(cmp), delivered)
    requires CanShow(cmp, delivered, a) && CanShow(cmp, delivered, b)
    ensures a == b
  {
    var arrivals, trace: seq<State> :| IsRun(cmp, arrivals, trace) && EndsWith(arrivals, trace, delivered, a);
    var arrivals', trace': seq<State> :| IsRun(cmp, arrivals', trace') && EndsWith(arrivals', trace', delivered, b);
    PagingIndependence(cmp, arrivals, trace, arrivals', trace');
  }

  /** The order shown is a function of the events alone exactly when no two of them compare equal. */
  lemma {:induction false} OrderIsFixedIffNoTies(cmp: (string, string) -> int, delivered: set<AgentEvent>)
    requires Collates(cmp) && IdsIdentify(delivered)
    ensures (forall a, b :: CanShow(cmp, delivered, a) && CanShow(cmp, delivered, b) ==> a == b)
      <==> NoTies(EventLe(cmp), delivered)
  {
    if NoTies(EventLe(cmp), delivered) {
      forall a, b | CanShow(cmp, delivered, a) && CanShow(cmp, delivered, b) ensures a == b {
        ShownIsFixed(cmp, delivered, a, b);
      }
    } else {
      var e, f :| e in delivered && f in delivered && EventLe(cmp)(e, f) && EventLe(cmp)(f, e) && e != f;
      TieCanShow(cmp, delivered, e, f);
    }
  }

  lemma {:induction false} SortTwo(cmp: (string, string) -> int, e: AgentEvent, f: AgentEvent)
    ensures SortAgentEvents(cmp, SortAgentEvents(cmp, [e]) + [f]) == if EventLe(cmp)(e, f) then [e, f] else [f, e]
  {
    var le := EventLe(cmp);
    assert Sort(le, [e]) == [e] by { assert [e][1..] == []; }
    assert Sort(le, [f]) == [f] by { assert [f][1..] == []; }
    assert ([e] + [f])[1..] == [f];
    assert Sort(le, [e] + [f]) == Insert(le, e, [f]);
    assert [f][1..] == [];
  }

  /** The order of two events delivered one per page depends on which came first exactly where they
      compare equal. */
  lemma {:induction false} OrderOfTiesIsArrival(cmp: (string, string) -> int, e: AgentEvent, f: AgentEvent)
    requires Collates(cmp) && e != f
    ensures SortAgentEvents(cmp, SortAgentEvents(cmp, [e]) + [f]) ==
      SortAgentEvents(cmp, SortAgentEvents(cmp, [f]) + [e])
      <==> !(EventLe(cmp)(e, f) && EventLe(cmp)(f, e))
  {
    SortTwo(cmp, e, f);
    SortTwo(cmp, f, e);
    EventOrderIsTotal(cmp);
    assert EventLe(cmp)(e, f) || EventLe(cmp)(f, e);
  }

  /** A page never takes a cursor back, and the stall mark never goes back or runs ahead of the clock
      while the clock itself does not go back. */
  lemma {:induction false} StepNeverGoesBack(cmp: (string, string) -> int, s: State, page: Page, now: int, s': State)
    requires Steps(cmp, s, page, now, s')
    requires s.seen == {} <==> s.lastEventAt.None?
    requires s.lastEventAt.Some? ==> s.lastEventAt.value <= now
    ensures s'.cursor.traceSeq >= s.cursor.traceSeq && s'.cursor.logSeq >= s.cursor.logSeq
    ensures s'.seen == {} <==> s'.lastEventAt.None?
    ensures s'.lastEventAt.Some? ==> s'.lastEventAt.value <= now
    ensures s.lastEventAt.Some? ==> s'.lastEventAt.Some? && s.lastEventAt.value <= s'.lastEventAt.value
  {
    FreshIds(s.seen, page.events);
    var arrived := Fresh(s.seen, page.events);
    if arrived != [] {
      assert arrived[0] in arrived && arrived[0].id in s'.seen;
    }
  }

  ghost predicate ClockForward(arrivals: seq<Arrival>) {
    forall i, j :: 0 <= i < j < |arrivals| ==> arrivals[i].now <= arrivals[j].now
  }

  lemma {:induction false} StepAtNeverGoesBack(cmp: (string, string) -> int, arrivals: seq<Arrival>,
      trace: seq<State>, i: nat)
    requires IsRun(cmp, arrivals, trace) && i < |arrivals|
    requires trace[i].seen == {} <==> trace[i].lastEventAt.None?
    requires trace[i].lastEventAt.Some? ==> trace[i].lastEventAt.value <= arrivals[i].now
    ensures trace[i].cursor.traceSeq <= trace[i + 1].cursor.traceSeq &&
      trace[i].cursor.logSeq <= trace[i + 1].cursor.logSeq
    ensures trace[i + 1].seen == {} <==> trace[i + 1].lastEventAt.None?
    ensures trace[i + 1].lastEventAt.Some? ==> trace[i + 1].lastEventAt.value <= arrivals[i].now
    ensures trace[i].lastEventAt.Some? ==>
      trace[i + 1].lastEventAt.Some? && trace[i].lastEventAt.value <= trace[i + 1].lastEventAt.value
  {
    assert StepAt(cmp, arrivals, trace, i);
    StepNeverGoesBack(cmp, trace[i], arrivals[i].page, arrivals[i].now, trace[i + 1]);
  }

  lemma {:induction false} RunStallMark(cmp: (string, string) -> int, arrivals: seq<Arrival>, trace: seq<State>, n: nat)
    requires IsRun(cmp, arrivals, trace) && ClockForward(arrivals) && n <= |arrivals|
    ensures trace[n].seen == {} <==> trace[n].lastEventAt.None?
    ensures trace[n].lastEventAt.Some? ==> n > 0 && trace[n].lastEventAt.value <= arrivals[n - 1].now
  {
    if n > 0 {
      RunStallMark(cmp, arrivals, trace, n - 1);
      StepAtNeverGoesBack(cmp, arrivals, trace, n - 1);
    }
  }

  /** Over a whole run the cursors and, under a clock that never goes back, the stall mark only grow. */
  lemma {:induction false} RunNeverGoesBack(cmp: (string, string) -> int, arrivals: seq<Arrival>, trace: seq<State>,
      m: nat, n: nat)
    requires IsRun(cmp, arrivals, trace) && ClockForward(arrivals) && m <= n <= |arrivals|
    ensures trace[m].cursor.traceSeq <= trace[n].cursor.traceSeq && trace[m].cursor.logSeq <= trace[n].cursor.logSeq
    ensures trace[m].lastEventAt.Some? ==>
      trace[n].lastEventAt.Some? && trace[m].lastEventAt.value <= trace[n].lastEventAt.value
  {
    if m < n {
      RunNeverGoesBack(cmp, arrivals, trace, m, n - 1);
      RunStallMark(cmp, arrivals, trace, n - 1);
      StepAtNeverGoesBack(cmp, arrivals, trace, n - 1);
    }
  }
}
