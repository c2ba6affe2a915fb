/** Each operation on toasts by what it leaves behind (stores/toasts.ts): up for 7 seconds, leaving for a fifth of
    one. */
module ToastsByClock {
  import opened Prelude
  import opened Toasts
  import Decimal

  /** One toast more, with a timer of its own that dismisses it after 7000 ms. */
  lemma {:induction false} PushSays<C>(s: State<C>, content: C)
    ensures var s', id := AfterPush(s, content), "toast-" + Decimal.Print(s.seqNo + 1);
      && s'.toasts == s.toasts + [Toast(id, content, false)]
      && s'.seqNo == s.seqNo + 1 && s'.handles == s.handles + 1 && s'.clock == s.clock
      && s'.timers == s.timers[id := s.handles]
      && s'.pending == s.pending[s.handles := Timer(s.clock + 7000, Dismissing(id))]
  {
  }

  /** The toast at `i` is the first with this id. */
  predicate FirstAt<C(==)>(toasts: seq<Toast<C>>, id: Id, i: int) {
    0 <= i < |toasts| && toasts[i].id == id && forall j :: 0 <= j < i ==> toasts[j].id != id
  }

  lemma {:induction false} FindIs<C>(toasts: seq<Toast<C>>, id: Id, i: int)
    requires FirstAt(toasts, id, i)
    ensures Find(toasts, id) == Some(toasts[i])
  {
    if i > 0 {
      var rest := toasts[1..];
      assert forall j :: 0 <= j < i - 1 ==> rest[j] == toasts[j + 1];
      FindIs(rest, id, i - 1);
    }
  }

  lemma {:induction false} FindNone<C>(toasts: seq<Toast<C>>, id: Id)
    requires forall j :: 0 <= j < |toasts| ==> toasts[j].id != id
    ensures Find(toasts, id) == None
  {
    if toasts != [] { FindNone(toasts[1..], id); }
  }

  /** No toast of that id, or one that is leaving already: nothing happens. */
  lemma {:induction false} DismissIdle<C>(s: State<C>, id: Id, i: int)
    ensures (forall j :: 0 <= j < |s.toasts| ==> s.toasts[j].id != id) ==> AfterDismiss(s, id) == s
    ensures FirstAt(s.toasts, id, i) && s.toasts[i].leaving ==> AfterDismiss(s, id) == s
  {
    if forall j :: 0 <= j < |s.toasts| ==> s.toasts[j].id != id { FindNone(s.toasts, id); }
    if FirstAt(s.toasts, id, i) { FindIs(s.toasts, id, i); }
  }

  /** Otherwise it is marked as leaving, its timer is cleared, and a new one removes it after 200 ms. */
  lemma {:induction false} DismissSays<C>(s: State<C>, id: Id, i: int)
    requires FirstAt(s.toasts, id, i) && !s.toasts[i].leaving
    ensures var s' := AfterDismiss(s, id);
      && |s'.toasts| == |s.toasts|
      && (forall j :: 0 <= j < |s.toasts| ==>
           s'.toasts[j] == if s.toasts[j].id == id then Toast(id, s.toasts[j].content, true) else s.toasts[j])
      && s'.seqNo == s.seqNo && s'.handles == s.handles + 1 && s'.clock == s.clock
      && s'.timers == s.timers[id := s.handles]
      && s'.pending == (if id in s.timers then s.pending - {s.timers[id]} else s.pending)[
           s.handles := Timer(s.clock + 200, Removing(id))]
  {
    FindIs(s.toasts, id, i);
    if id in s.timers { assert (s.timers - {id})[id := s.handles] == s.timers[id := s.handles]; }
  }

  /** A removing timer takes away the toasts of its id and no others. */
  lemma {:induction false} RemoveSays<C>(s: State<C>, h: Handle, id: Id)
    requires h in s.pending && s.pending[h].action == Removing(id)
    ensures var s' := AfterFire(s, h);
      && (forall t :: t in s'.toasts <==> t in s.toasts && t.id != id)
      && s'.seqNo == s.seqNo && s'.handles == s.handles && s'.clock == s.clock
      && s'.timers == s.timers - {id} && s'.pending == s.pending - {h}
  {
  }

  /** The others stay in order. */
  lemma {:induction false} RemoveInOrder<C>(a: seq<Toast<C>>, t: Toast<C>, id: Id)
    ensures Filter([], Unlike<C>(id)) == []
    ensures Filter(a + [t], Unlike(id)) == if t.id == id then Filter(a, Unlike(id)) else Filter(a, Unlike(id)) + [t]
  {
    FilterAppend(a, [t], Unlike(id));
    FilterCons(t, [], Unlike(id));
    assert [t] == [t] + [];
  }

  /** The life of a toast that is pushed at any point of any run: gone more than 7200 ms later, and before 7000 ms
      up and not leaving unless it was dismissed. */
  lemma {:induction false} LifeSays<C(!new)>(start: int, before: seq<Event<C>>, s: State<C>, content: C,
      after: seq<Event<C>>, end: State<C>)
    requires MayRun(Initial(start), before) && s == Ran(Initial(start), before)
    requires MayRun(AfterPush(s, content), after) && end == Ran(AfterPush(s, content), after)
    ensures var id := "toast-" + Decimal.Print(s.seqNo + 1);
      && (end.clock > s.clock + 7200 ==> forall t :: t in end.toasts ==> t.id != id)
      && (end.clock < s.clock + 7000 && Dismissed(id) !in after ==>
           exists t :: t in end.toasts && t.id == id && !t.leaving)
  {
    var id := "toast-" + Decimal.Print(s.seqNo + 1);
    ReachableIsTimed(start, before);
    FindHas(end.toasts, id);
    if end.clock > s.clock + 7200 { GoneInTime(s, content, after); }
    if end.clock < s.clock + 7000 && Dismissed(id) !in after { StaysUp(s, content, after); }
  }
}
