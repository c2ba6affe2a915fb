/** A polled run said in the fields of its pages (replay/use-run-events.ts and replay/replay-order.ts): the
    cursors it asks with, the stall mark, what joins the list, and the order of the list. */
module RunByPages {
  import opened Prelude
  import opened Sorting
  import opened ReplayOrder
  import opened RunEvents

  // ---------- Cursors ----------

  /** How far the page says the trace has come: an older server gives one number for both streams. */
  predicate TraceIs(page: Page, n: int) {
    match page.nextCursor
    case Some(c) => n == c.traceSeq
    case None => n == page.nextSince
  }

  predicate LogIs(page: Page, n: int) {
    match page.nextCursor
    case Some(c) => n == c.logSeq
    case None => n == page.nextSince
  }

  /** `n` is the greatest of -1 and what the pages say of the trace. */
  ghost predicate FurthestTrace(arrivals: seq<Arrival>, n: int) {
    && (n == -1 || exists i :: 0 <= i < |arrivals| && TraceIs(arrivals[i].page, n))
    && n >= -1 && forall i, m :: 0 <= i < |arrivals| && TraceIs(arrivals[i].page, m) ==> m <= n
  }

  ghost predicate FurthestLog(arrivals: seq<Arrival>, n: int) {
    && (n == -1 || exists i :: 0 <= i < |arrivals| && LogIs(arrivals[i].page, n))
    && n >= -1 && forall i, m :: 0 <= i < |arrivals| && LogIs(arrivals[i].page, m) ==> m <= n
  }

  lemma {:induction false} TraceFurther(arrivals: seq<Arrival>, n: int, m: int)
    requires arrivals != [] && FurthestTrace(arrivals[..|arrivals| - 1], n)
    requires TraceIs(arrivals[|arrivals| - 1].page, m)
    ensures FurthestTrace(arrivals, if n < m then m else n)
  {
    var front := arrivals[..|arrivals| - 1];
    if n >= m && n != -1 {
      var i :| 0 <= i < |front| && TraceIs(front[i].page, n);
      assert TraceIs(arrivals[i].page, n);
    }
    forall i, k | 0 <= i < |arrivals| && TraceIs(arrivals[i].page, k) ensures k <= n || k <= m {
      if i < |front| { assert TraceIs(front[i].page, k); }
    }
  }

  lemma {:induction false} LogFurther(arrivals: seq<Arrival>, n: int, m: int)
    requires arrivals != [] && FurthestLog(arrivals[..|arrivals| - 1], n)
    requires LogIs(arrivals[|arrivals| - 1].page, m)
    ensures FurthestLog(arrivals, if n < m then m else n)
  {
    var front := arrivals[..|arrivals| - 1];
    if n >= m && n != -1 {
      var i :| 0 <= i < |front| && LogIs(front[i].page, n);
      assert LogIs(arrivals[i].page, n);
    }
    forall i, k | 0 <= i < |arrivals| && LogIs(arrivals[i].page, k) ensures k <= n || k <= m {
      if i < |front| { assert LogIs(front[i].page, k); }
    }
  }

  lemma {:induction false} CursorSteps(s: State, page: Page, s': State) returns (m: int, n: int)
    requires CursorStep(s, page, s')
    ensures TraceIs(page, m) && s'.cursor.traceSeq == if s.cursor.traceSeq < m then m else s.cursor.traceSeq
    ensures LogIs(page, n) && s'.cursor.logSeq == if s.cursor.logSeq < n then n else s.cursor.logSeq
  {
    m, n := Next(page).traceSeq, Next(page).logSeq;
  }

  /** However pages come, repeated or out of order, each cursor is the furthest its own stream has come. */
  lemma {:induction false} RunCursors(cmp: (string, string) -> int, arrivals: seq<Arrival>, trace: seq<State>)
    requires IsRun(cmp, arrivals, trace)
    ensures FurthestTrace(arrivals, trace[|arrivals|].cursor.traceSeq)
    ensures FurthestLog(arrivals, trace[|arrivals|].cursor.logSeq)
  {
    if arrivals != [] {
      var n := |arrivals| - 1;
      RunPrefix(cmp, arrivals, trace);
      RunCursors(cmp, arrivals[..n], trace[..n + 1]);
      assert StepAt(cmp, arrivals, trace, n);
      var k, l := CursorSteps(trace[n], arrivals[n].page, trace[n + 1]);
      TraceFurther(arrivals, trace[n].cursor.traceSeq, k);
      LogFurther(arrivals, trace[n].cursor.logSeq, l);
    }
  }

  // ---------- The stall mark ----------

  /** When the event was received, or if it says nothing of that, when it happened. */
  predicate TimeIs(e: AgentEvent, t: int) {
    match e.receivedAt
    case At(r) => t == r
    case Unreadable => false
    case Absent => e.ts == At(t)
  }

  /** The event at position `i` of the page has an id not seen before. */
  predicate NewAt(s: State, page: Page, i: int) {
    0 <= i < |page.events| && page.events[i].id !in s.seen
  }

  ghost predicate NewTime(s: State, page: Page, t: int) {
    exists i :: NewAt(s, page, i) && TimeIs(page.events[i], t)
  }

  /** The newest time among the new events, if any can be read, or else the clock. */
  ghost predicate NewestOf(s: State, page: Page, now: int, t: int) {
    if exists u :: NewTime(s, page, u) then NewTime(s, page, t) && forall u :: NewTime(s, page, u) ==> u <= t
    else t == now
  }

  /** A page without a new event leaves the mark alone; the first with one sets it to the newest time, not
      past the clock; every later one sets it to the clock. */
  ghost predicate StallSays(s: State, page: Page, now: int, s': State) {
    if forall i :: !NewAt(s, page, i) then s'.lastEventAt == s.lastEventAt
    else if exists id :: id in s.seen then s'.lastEventAt == Some(now)
    else exists t :: NewestOf(s, page, now, t) && s'.lastEventAt == Some(if t < now then t else now)
  }

  lemma {:induction false} FreshIs(s: State, page: Page)
    ensures forall i :: NewAt(s, page, i) ==> page.events[i] in Fresh(s.seen, page.events)
    ensures forall e :: e in Fresh(s.seen, page.events) ==> exists i :: NewAt(s, page, i) && page.events[i] == e
    ensures Fresh(s.seen, page.events) == [] <==> forall i :: !NewAt(s, page, i)
  {
    var arrived := Fresh(s.seen, page.events);
    forall e | e in arrived ensures exists i :: NewAt(s, page, i) && page.events[i] == e {
      var i :| 0 <= i < |page.events| && page.events[i] == e;
      assert NewAt(s, page, i);
    }
    if arrived != [] { assert arrived[0] in arrived; }
  }

  lemma {:induction false} NewTimeIs(s: State, page: Page, t: int)
    ensures NewTime(s, page, t) <==> exists e :: e in Fresh(s.seen, page.events) && Receipt(e) == Some(t)
  {
    FreshIs(s, page);
    if NewTime(s, page, t) {
      var i :| NewAt(s, page, i) && TimeIs(page.events[i], t);
      assert Receipt(page.events[i]) == Some(t);
    }
    if e :| e in Fresh(s.seen, page.events) && Receipt(e) == Some(t) {
      var i :| NewAt(s, page, i) && page.events[i] == e;
      assert TimeIs(page.events[i], t);
    }
  }

  lemma {:induction false} NewestIs(s: State, page: Page, now: int, t: int)
    requires IsNewest(Fresh(s.seen, page.events), now, t)
    ensures NewestOf(s, page, now, t)
  {
    var arrived := Fresh(s.seen, page.events);
    forall u ensures NewTime(s, page, u) <==> exists e :: e in arrived && Receipt(e) == Some(u) {
      NewTimeIs(s, page, u);
    }
    if e :| e in arrived && Receipt(e).Some? {
      assert NewTime(s, page, Receipt(e).value);
    }
  }

  lemma {:induction false} StallIs(s: State, page: Page, now: int, s': State)
    requires StallStep(s, page, now, s')
    ensures StallSays(s, page, now, s')
  {
    var arrived := Fresh(s.seen, page.events);
    FreshIs(s, page);
    if arrived != [] && s.seen == {} {
      var t :| IsNewest(arrived, now, t) && s'.lastEventAt == Some(Min(t, now));
      NewestIs(s, page, now, t);
    }
  }

  // ---------- The list ----------

  function SignalOf(e: AgentEvent): string {
    match e.signal case Some(s) => s case None => "trace"
  }

  ghost predicate TieBefore(cmp: (string, string) -> int, a: AgentEvent, b: AgentEvent) {
    var c := cmp(SignalOf(a), SignalOf(b));
    c < 0 || (c == 0 && (a.rawSeq < b.rawSeq || (a.rawSeq == b.rawSeq && cmp(a.id, b.id) <= 0)))
  }

  /** Earlier times first and unreadable ones last; then the signal, the position in its stream, the id. */
  ghost predicate ListedBefore(cmp: (string, string) -> int, a: AgentEvent, b: AgentEvent) {
    match (a.ts, b.ts)
    case (At(t), At(u)) => t < u || (t == u && TieBefore(cmp, a, b))
    case (At(_), _) => true
    case (_, At(_)) => false
    case _ => TieBefore(cmp, a, b)
  }

  lemma {:induction false} ListedBeforeIs(cmp: (string, string) -> int, a: AgentEvent, b: AgentEvent)
    ensures EventLe(cmp)(a, b) <==> ListedBefore(cmp, a, b)
  {
  }

  /** What one page does to the list and the ids: exactly its events of unseen ids join, as often as the
      page holds them. */
  ghost predicate ListSays(s: State, page: Page, s': State) {
    && (forall id :: id in s'.seen <==> id in s.seen || exists i :: 0 <= i < |page.events| && page.events[i].id == id)
    && (forall e: AgentEvent :: multiset(s'.events)[e] ==
         multiset(s.events)[e] + if e.id in s.seen then 0 else multiset(page.events)[e])
  }

  lemma {:induction false} FreshCount(seen: set<string>, events: seq<AgentEvent>, e: AgentEvent)
    ensures multiset(Fresh(seen, events))[e] == if e.id in seen then 0 else multiset(events)[e]
  {
    FilterCount(events, (f: AgentEvent) => f.id !in seen, e);
  }

  lemma {:induction false} IdsAre(events: seq<AgentEvent>, id: string)
    ensures id in Ids(events) <==> exists i :: 0 <= i < |events| && events[i].id == id
  {
    if i :| 0 <= i < |events| && events[i].id == id { assert events[i] in events; }
  }

  lemma {:induction false} ListIs(cmp: (string, string) -> int, s: State, page: Page, s': State)
    requires EventsStep(cmp, s, page, s')
    ensures ListSays(s, page, s')
  {
    forall e: AgentEvent ensures multiset(s'.events)[e] ==
      multiset(s.events)[e] + if e.id in s.seen then 0 else multiset(page.events)[e]
    {
      FreshCount(s.seen, page.events, e);
    }
    forall id ensures id in s'.seen <==>
      id in s.seen || exists i :: 0 <= i < |page.events| && page.events[i].id == id
    {
      IdsAre(page.events, id);
    }
  }

  lemma {:induction false} SortedIs(cmp: (string, string) -> int, events: seq<AgentEvent>)
    requires Sorted(EventLe(cmp), events)
    ensures forall i, j :: 0 <= i < j < |events| ==> ListedBefore(cmp, events[i], events[j])
  {
    forall i, j | 0 <= i < j < |events| ensures ListedBefore(cmp, events[i], events[j]) {
      ListedBeforeIs(cmp, events[i], events[j]);
    }
  }

  /** One page, by fields alone. */
  lemma {:induction false} PageSays(cmp: (string, string) -> int, s: State, page: Page, now: int, s': State)
    requires Steps(cmp, s, page, now, s')
    ensures StallSays(s, page, now, s') && ListSays(s, page, s')
  {
    StallIs(s, page, now, s');
    ListIs(cmp, s, page, s');
  }

  /** The list is in order at every point of a run. */
  lemma {:induction false} RunInOrder(cmp: (string, string) -> int, arrivals: seq<Arrival>, trace: seq<State>)
    requires Collates(cmp) && IsRun(cmp, arrivals, trace)
    ensures var events := trace[|arrivals|].events;
      forall i, j :: 0 <= i < j < |events| ==> ListedBefore(cmp, events[i], events[j])
  {
    RunSorted(cmp, arrivals, trace);
    SortedIs(cmp, trace[|arrivals|].events);
  }
}
