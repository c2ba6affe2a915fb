/** Toasts and their timers (stores/toasts.ts). The store and the `timers` map are the source's own;
    the pending timeouts and the clock are the engine's. */
module Toasts {
  import opened Prelude
  import Decimal

  const AUTO_DISMISS_MS := 7000
  const EXIT_MS := 200

  type Id = string
  type Handle = nat

  datatype Toast<C> = Toast(id: Id, content: C, leaving: bool)

  /** The two callbacks. */
  datatype Action = Dismissing(id: Id) | Removing(id: Id)

  datatype Timer = Timer(due: int, action: Action)

  datatype State<C> = State(
    toasts: seq<Toast<C>>, timers: map<Id, Handle>, seqNo: nat,
    pending: map<Handle, Timer>, handles: nat, clock: int)

  function MintId(n: nat): Id { "toast-" + Decimal.Print(n) }

  lemma {:induction false} MintInjective(m: nat, n: nat)
    requires MintId(m) == MintId(n)
    ensures m == n
  {
    assert MintId(m)[6..] == Decimal.Print(m) && MintId(n)[6..] == Decimal.Print(n);
    Decimal.ReadPrint(m);
    Decimal.ReadPrint(n);
  }

  // ---------- One step ----------

  function Find<C>(toasts: seq<Toast<C>>, id: Id): Option<Toast<C>> {
    if toasts == [] then None
    else if toasts[0].id == id then Some(toasts[0])
    else Find(toasts[1..], id)
  }

  predicate HasId<C>(toasts: seq<Toast<C>>, id: Id) { Find(toasts, id).Some? }

  /** `setTimeout`, remembered under the id. */
  function Schedule<C>(s: State<C>, id: Id, wait: nat, action: Action): State<C> {
    s.(timers := s.timers[id := s.handles],
       pending := s.pending[s.handles := Timer(s.clock + wait, action)],
       handles := s.handles + 1)
  }

  function AfterPush<C>(s: State<C>, content: C): State<C> {
    var id := MintId(s.seqNo + 1);
    Schedule(s.(toasts := s.toasts + [Toast(id, content, false)], seqNo := s.seqNo + 1), id, AUTO_DISMISS_MS,
      Dismissing(id))
  }

  function Marked<C>(t: Toast<C>, id: Id): Toast<C> {
    if t.id == id then t.(leaving := true) else t
  }

  function Marking<C>(id: Id): Toast<C> -> Toast<C> { (t: Toast<C>) => Marked(t, id) }

  function Cleared<C>(s: State<C>, id: Id): State<C> {
    if id in s.timers then s.(pending := s.pending - {s.timers[id]}, timers := s.timers - {id}) else s
  }

  function AfterDismiss<C>(s: State<C>, id: Id): State<C> {
    var toast := Find(s.toasts, id);
    if toast.None? || toast.value.leaving then s
    else
      var cleared := Cleared(s, id);
      Schedule(cleared.(toasts := Map(s.toasts, Marking(id))), id, EXIT_MS, Removing(id))
  }

  function Unlike<C>(id: Id): Toast<C> -> bool { (t: Toast<C>) => t.id != id }

  /** A timeout that comes due is no longer pending when its callback runs. */
  function AfterFire<C>(s: State<C>, h: Handle): State<C>
    requires h in s.pending
  {
    var rest := s.(pending := s.pending - {h});
    match s.pending[h].action
    case Dismissing(id) => AfterDismiss(rest, id)
    case Removing(id) => rest.(timers := s.timers - {id}, toasts := Filter(s.toasts, Unlike(id)))
  }

  /** Timers are on time: the clock does not pass a pending one. */
  ghost predicate MayAdvance<C>(s: State<C>, to: int) {
    s.clock <= to && forall h :: h in s.pending ==> to <= s.pending[h].due
  }

  // ---------- The store ----------

  function Initial<C>(start: int): State<C> {
    State([], map[], 0, map[], 0, start)
  }

  class ToastStore<C> {
    var toasts: seq<Toast<C>>
    var timers: map<Id, Handle>
    var seqNo: nat
    var pending: map<Handle, Timer>
    var handles: nat
    var clock: int

    ghost function Now(): State<C>
      reads this
    {
      State(toasts, timers, seqNo, pending, handles, clock)
    }

    constructor (start: int)
      ensures Now() == Initial(start)
    {
      toasts, timers, seqNo, pending, handles, clock := [], map[], 0, map[], 0, start;
    }

    method SetTimeout(id: Id, wait: nat, action: Action)
      modifies this
      ensures Now() == Schedule(old(Now()), id, wait, action)
    {
      pending := pending[handles := Timer(clock + wait, action)];
      timers := timers[id := handles];
      handles := handles + 1;
    }

    method Push(content: C) returns (id: Id)
      modifies this
      ensures id == MintId(old(seqNo) + 1)
      ensures Now() == AfterPush(old(Now()), content)
    {
      seqNo := seqNo + 1;
      id := MintId(seqNo);
      toasts := toasts + [Toast(id, content, false)];
      SetTimeout(id, AUTO_DISMISS_MS, Dismissing(id));
    }

    method Dismiss(id: Id)
      modifies this
      ensures Now() == AfterDismiss(old(Now()), id)
    {
      var toast := Find(toasts, id);
      if toast.None? || toast.value.leaving { return; }
      if id in timers {
        pending := pending - {timers[id]};
        timers := timers - {id};
      }
      toasts := Map(toasts, Marking(id));
      SetTimeout(id, EXIT_MS, Removing(id));
    }

    method Fire(h: Handle)
      requires h in pending && pending[h].due <= clock
      modifies this
      ensures Now() == AfterFire(old(Now()), h)
    {
      var timer := pending[h];
      pending := pending - {h};
      match timer.action
      case Dismissing(id) =>
        Dismiss(id);
      case Removing(id) =>
        timers := timers - {id};
        toasts := Filter(toasts, Unlike(id));
    }

    method Advance(to: int)
      requires MayAdvance(Now(), to)
      modifies this`clock
      ensures Now() == old(Now()).(clock := to)
    {
      clock := to;
    }
  }

  // ---------- The invariant ----------

  /** The toast has a pending timer of the right phase. */
  ghost predicate ToastTimed<C>(s: State<C>, t: Toast<C>) {
    && t.id in s.timers && s.timers[t.id] in s.pending
    && s.pending[s.timers[t.id]].action == if t.leaving then Removing(t.id) else Dismissing(t.id)
  }

  /** The pending timer is the one of a toast on show, and it is not late. */
  ghost predicate TimerOwned<C>(s: State<C>, h: Handle)
    requires h in s.pending
  {
    var timer := s.pending[h];
    && h < s.handles
    && HasId(s.toasts, timer.action.id)
    && timer.action.id in s.timers && s.timers[timer.action.id] == h
    && s.clock <= timer.due
  }

  ghost predicate Minted(seqNo: nat, id: Id) {
    exists n: nat :: n <= seqNo && MintId(n) == id
  }

  ghost predicate OneEach<C>(toasts: seq<Toast<C>>) {
    forall i, j :: 0 <= i < j < |toasts| ==> toasts[i].id != toasts[j].id
  }

  /** Every toast has exactly one pending timer, of the right phase, and every timer has a toast. */
  ghost predicate Inv<C(!new)>(s: State<C>) {
    && (forall t :: t in s.toasts ==> ToastTimed(s, t) && Minted(s.seqNo, t.id))
    && (forall h :: h in s.pending ==> TimerOwned(s, h))
    && (forall id :: id in s.timers ==> HasId(s.toasts, id))
    && OneEach(s.toasts)
  }

  lemma {:induction false} FindHas<C>(toasts: seq<Toast<C>>, id: Id)
    ensures HasId(toasts, id) <==> exists t :: t in toasts && t.id == id
    ensures HasId(toasts, id) ==> Find(toasts, id).value in toasts && Find(toasts, id).value.id == id
  {
    if toasts != [] {
      FindHas(toasts[1..], id);
      assert toasts == [toasts[0]] + toasts[1..];
    }
  }

  lemma {:induction false} FindAppend<C>(toasts: seq<Toast<C>>, t: Toast<C>, id: Id)
    ensures HasId(toasts + [t], id) <==> HasId(toasts, id) || t.id == id
  {
    if toasts == [] {
      assert (toasts + [t])[0] == t && (toasts + [t])[1..] == [];
    } else {
      FindAppend(toasts[1..], t, id);
      assert (toasts + [t])[1..] == toasts[1..] + [t];
    }
  }

  lemma {:induction false} FindMarked<C>(toasts: seq<Toast<C>>, mark: Id, id: Id)
    ensures HasId(Map(toasts, Marking(mark)), id) <==> HasId(toasts, id)
  {
    if toasts != [] {
      FindMarked(toasts[1..], mark, id);
      assert Map(toasts, Marking(mark))[1..] == Map(toasts[1..], Marking(mark));
    }
  }

  lemma {:induction false} FindFiltered<C>(toasts: seq<Toast<C>>, gone: Id, id: Id)
    ensures HasId(Filter(toasts, Unlike(gone)), id) <==> HasId(toasts, id) && id != gone
  {
    FindHas(toasts, id);
    FindHas(Filter(toasts, Unlike(gone)), id);
    if HasId(toasts, id) && id != gone {
      assert Find(toasts, id).value in Filter(toasts, Unlike(gone));
    }
  }

  lemma {:induction false} OneEachFiltered<C>(toasts: seq<Toast<C>>, keep: Toast<C> -> bool)
    requires OneEach(toasts)
    ensures OneEach(Filter(toasts, keep))
  {
    if toasts != [] {
      var rest := toasts[1..];
      assert OneEach(rest);
      OneEachFiltered(rest, keep);
      forall t | t in Filter(rest, keep) ensures t.id != toasts[0].id {
        var j :| 0 <= j < |rest| && rest[j] == t;
        assert toasts[j + 1] == t;
      }
    }
  }

  lemma {:induction false} FreshId<C(!new)>(s: State<C>)
    requires Inv(s)
    ensures !HasId(s.toasts, MintId(s.seqNo + 1))
  {
    var id := MintId(s.seqNo + 1);
    FindHas(s.toasts, id);
    if HasId(s.toasts, id) {
      var n: nat :| n <= s.seqNo && MintId(n) == id;
      MintInjective(n, s.seqNo + 1);
    }
  }

  // ---------- Every step keeps the invariant ----------

  lemma {:induction false} PushTimes<C(!new)>(s: State<C>, content: C, t: Toast<C>)
    requires Inv(s) && t in AfterPush(s, content).toasts
    ensures ToastTimed(AfterPush(s, content), t) && Minted(s.seqNo + 1, t.id)
  {
    var id := MintId(s.seqNo + 1);
    FreshId(s);
    FindHas(s.toasts, id);
    if t in s.toasts {
      assert ToastTimed(s, t) && TimerOwned(s, s.timers[t.id]);
      var n: nat :| n <= s.seqNo && MintId(n) == t.id;
      assert n <= s.seqNo + 1;
    } else {
      assert t == Toast(id, content, false);
    }
  }

  lemma {:induction false} PushOwned<C(!new)>(s: State<C>, content: C, h: Handle)
    requires Inv(s) && h in AfterPush(s, content).pending
    ensures TimerOwned(AfterPush(s, content), h)
  {
    var s' := AfterPush(s, content);
    FreshId(s);
    FindAppend(s.toasts, Toast(MintId(s.seqNo + 1), content, false), s'.pending[h].action.id);
    if h != s.handles { assert TimerOwned(s, h); }
  }

  lemma {:induction false} OneEachPush<C(!new)>(toasts: seq<Toast<C>>, t: Toast<C>)
    requires OneEach(toasts) && !HasId(toasts, t.id)
    ensures OneEach(toasts + [t])
  {
    FindHas(toasts, t.id);
  }

  lemma {:induction false} PushKeeps<C(!new)>(s: State<C>, content: C)
    requires Inv(s)
    ensures Inv(AfterPush(s, content))
  {
    var s' := AfterPush(s, content);
    var toast := Toast(MintId(s.seqNo + 1), content, false);
    forall t | t in s'.toasts ensures ToastTimed(s', t) && Minted(s'.seqNo, t.id) {
      PushTimes(s, content, t);
    }
    forall h | h in s'.pending ensures TimerOwned(s', h) {
      PushOwned(s, content, h);
    }
    forall i | i in s'.timers ensures HasId(s'.toasts, i) {
      FindAppend(s.toasts, toast, i);
    }
    FreshId(s);
    OneEachPush(s.toasts, toast);
  }

  lemma {:induction false} MarkedTimed<C(!new)>(s: State<C>, id: Id, t: Toast<C>)
    requires Inv(s) && Find(s.toasts, id).Some? && !Find(s.toasts, id).value.leaving
    requires t in AfterDismiss(s, id).toasts
    ensures ToastTimed(AfterDismiss(s, id), t) && Minted(s.seqNo, t.id)
  {
    var marked := Map(s.toasts, Marking(id));
    var i :| 0 <= i < |marked| && marked[i] == t;
    var u := s.toasts[i];
    assert u in s.toasts && t == Marked(u, id);
    assert ToastTimed(s, u) && TimerOwned(s, s.timers[u.id]);
    FindHas(s.toasts, id);
    assert ToastTimed(s, Find(s.toasts, id).value);
  }

  lemma {:induction false} DismissOwned<C(!new)>(s: State<C>, id: Id, h: Handle)
    requires Inv(s) && Find(s.toasts, id).Some? && !Find(s.toasts, id).value.leaving
    requires h in AfterDismiss(s, id).pending
    ensures TimerOwned(AfterDismiss(s, id), h)
  {
    FindMarked(s.toasts, id, AfterDismiss(s, id).pending[h].action.id);
    FindHas(s.toasts, id);
    assert ToastTimed(s, Find(s.toasts, id).value);
    if h != s.handles { assert TimerOwned(s, h); }
  }

  lemma {:induction false} OneEachMarked<C>(toasts: seq<Toast<C>>, id: Id)
    requires OneEach(toasts)
    ensures OneEach(Map(toasts, Marking(id)))
  {
  }

  lemma {:induction false} DismissKeeps<C(!new)>(s: State<C>, id: Id)
    requires Inv(s)
    ensures Inv(AfterDismiss(s, id))
  {
    FindHas(s.toasts, id);
    var toast := Find(s.toasts, id);
    if toast.Some? && !toast.value.leaving {
      var s' := AfterDismiss(s, id);
      assert ToastTimed(s, toast.value);
      forall t | t in s'.toasts ensures ToastTimed(s', t) && Minted(s'.seqNo, t.id) {
        MarkedTimed(s, id, t);
      }
      forall h | h in s'.pending ensures TimerOwned(s', h) {
        DismissOwned(s, id, h);
      }
      forall i | i in s'.timers ensures HasId(s'.toasts, i) {
        FindMarked(s.toasts, id, i);
      }
      OneEachMarked(s.toasts, id);
    }
  }

  /** Letting the auto-dismiss timer fire is dismissing. */
  lemma {:induction false} FireIsDismiss<C(!new)>(s: State<C>, h: Handle)
    requires Inv(s) && h in s.pending && s.pending[h].action.Dismissing?
    ensures AfterFire(s, h) == AfterDismiss(s, s.pending[h].action.id)
    ensures !Find(s.toasts, s.pending[h].action.id).value.leaving
  {
    var id := s.pending[h].action.id;
    assert TimerOwned(s, h);
    FindHas(s.toasts, id);
    assert ToastTimed(s, Find(s.toasts, id).value);
    assert s.pending - {h} - {h} == s.pending - {h};
  }

  lemma {:induction false} RemoveKeeps<C(!new)>(s: State<C>, h: Handle)
    requires Inv(s) && h in s.pending && s.pending[h].action.Removing?
    ensures Inv(AfterFire(s, h))
  {
    var id := s.pending[h].action.id;
    var s' := AfterFire(s, h);
    assert TimerOwned(s, h);
    forall t | t in s'.toasts ensures ToastTimed(s', t) && Minted(s'.seqNo, t.id) {
      assert ToastTimed(s, t) && TimerOwned(s, s.timers[t.id]);
    }
    forall g | g in s'.pending ensures TimerOwned(s', g) {
      assert TimerOwned(s, g);
      FindFiltered(s.toasts, id, s.pending[g].action.id);
    }
    forall i | i in s'.timers ensures HasId(s'.toasts, i) {
      FindFiltered(s.toasts, id, i);
    }
    OneEachFiltered(s.toasts, Unlike(id));
  }

  lemma {:induction false} AdvanceKeeps<C(!new)>(s: State<C>, to: int)
    requires Inv(s) && MayAdvance(s, to)
    ensures Inv(s.(clock := to))
  {
    var s' := s.(clock := to);
    forall t | t in s'.toasts ensures ToastTimed(s', t) && Minted(s'.seqNo, t.id) {
      assert ToastTimed(s, t);
    }
    forall h | h in s'.pending ensures TimerOwned(s', h) {
      assert TimerOwned(s, h);
    }
  }

  // ---------- Whole runs ----------

  datatype Event<C> = Pushed(content: C) | Dismissed(id: Id) | Fired(h: Handle) | Passed(to: int)

  /** What can happen next, with timers on time. */
  ghost predicate MayHappen<C>(s: State<C>, e: Event<C>) {
    match e
    case Pushed(_) => true
    case Dismissed(_) => true
    case Fired(h) => h in s.pending && s.pending[h].due <= s.clock
    case Passed(to) => MayAdvance(s, to)
  }

  ghost function After<C>(s: State<C>, e: Event<C>): State<C>
    requires MayHappen(s, e)
  {
    match e
    case Pushed(content) => AfterPush(s, content)
    case Dismissed(id) => AfterDismiss(s, id)
    case Fired(h) => AfterFire(s, h)
    case Passed(to) => s.(clock := to)
  }

  ghost predicate MayRun<C>(s: State<C>, es: seq<Event<C>>)
    decreases |es|
  {
    es == [] || (MayHappen(s, es[0]) && MayRun(After(s, es[0]), es[1..]))
  }

  ghost function Ran<C>(s: State<C>, es: seq<Event<C>>): State<C>
    requires MayRun(s, es)
    decreases |es|
  {
    if es == [] then s else Ran(After(s, es[0]), es[1..])
  }

  lemma {:induction false} StepKeeps<C(!new)>(s: State<C>, e: Event<C>)
    requires Inv(s) && MayHappen(s, e)
    ensures Inv(After(s, e))
  {
    match e
    case Pushed(content) => PushKeeps(s, content);
    case Dismissed(id) => DismissKeeps(s, id);
    case Passed(to) => AdvanceKeeps(s, to);
    case Fired(h) =>
      if s.pending[h].action.Dismissing? {
        FireIsDismiss(s, h);
        DismissKeeps(s, s.pending[h].action.id);
      } else {
        RemoveKeeps(s, h);
      }
  }

  /** Every reachable state satisfies the invariant: no toast is ever left without its timer. */
  lemma {:induction false} RunKeeps<C(!new)>(s: State<C>, es: seq<Event<C>>)
    requires Inv(s) && MayRun(s, es)
    ensures Inv(Ran(s, es)) && s.clock <= Ran(s, es).clock
    decreases |es|
  {
    if es != [] {
      StepKeeps(s, es[0]);
      RunKeeps(After(s, es[0]), es[1..]);
    }
  }

  lemma {:induction false} ReachableIsTimed<C(!new)>(start: int, es: seq<Event<C>>)
    requires MayRun(Initial(start), es)
    ensures Inv(Ran(Initial(start), es))
  {
    RunKeeps(Initial(start), es);
  }

  /** The timer that the toast has is due in time for a toast born at `born`. */
  ghost predicate OnSchedule<C>(s: State<C>, id: Id, born: int) {
    && Minted(s.seqNo, id)
    && (HasId(s.toasts, id) ==>
          && id in s.timers && s.timers[id] in s.pending
          && var timer := s.pending[s.timers[id]];
             timer.action.id == id &&
             if timer.action.Dismissing? then timer.due == born + AUTO_DISMISS_MS
             else timer.due <= born + AUTO_DISMISS_MS + EXIT_MS)
  }

  lemma {:induction false} PushSchedules<C(!new)>(s: State<C>, content: C)
    requires Inv(s)
    ensures OnSchedule(AfterPush(s, content), MintId(s.seqNo + 1), s.clock)
    ensures HasId(AfterPush(s, content).toasts, MintId(s.seqNo + 1))
  {
    FindAppend(s.toasts, Toast(MintId(s.seqNo + 1), content, false), MintId(s.seqNo + 1));
  }

  lemma {:induction false} PushLeavesSchedule<C(!new)>(s: State<C>, content: C, id: Id, born: int)
    requires Inv(s) && OnSchedule(s, id, born)
    ensures OnSchedule(AfterPush(s, content), id, born)
  {
    var n: nat :| n <= s.seqNo && MintId(n) == id;
    assert n <= s.seqNo + 1;
    FindAppend(s.toasts, Toast(MintId(s.seqNo + 1), content, false), id);
    if MintId(s.seqNo + 1) == id { MintInjective(n, s.seqNo + 1); }
    if HasId(s.toasts, id) { assert TimerOwned(s, s.timers[id]); }
  }

  lemma {:induction false} OtherDismissKeepsSchedule<C(!new)>(s: State<C>, other: Id, id: Id, born: int)
    requires Inv(s) && OnSchedule(s, id, born) && other != id
    ensures OnSchedule(AfterDismiss(s, other), id, born)
  {
    var toast := Find(s.toasts, other);
    FindMarked(s.toasts, other, id);
    if toast.Some? && !toast.value.leaving && HasId(s.toasts, id) {
      FindHas(s.toasts, other);
      assert ToastTimed(s, toast.value);
      assert TimerOwned(s, s.timers[other]);
      assert TimerOwned(s, s.timers[id]);
    }
  }

  lemma {:induction false} DismissKeepsSchedule<C(!new)>(s: State<C>, other: Id, id: Id, born: int)
    requires Inv(s) && OnSchedule(s, id, born)
    ensures OnSchedule(AfterDismiss(s, other), id, born)
  {
    if other != id {
      OtherDismissKeepsSchedule(s, other, id, born);
    } else {
      FindHas(s.toasts, id);
      var toast := Find(s.toasts, id);
      if toast.Some? && !toast.value.leaving {
        assert ToastTimed(s, toast.value);
        assert TimerOwned(s, s.timers[id]);
      }
    }
  }

  lemma {:induction false} RemoveKeepsSchedule<C(!new)>(s: State<C>, h: Handle, id: Id, born: int)
    requires Inv(s) && h in s.pending && s.pending[h].action.Removing? && OnSchedule(s, id, born)
    ensures OnSchedule(AfterFire(s, h), id, born)
  {
    FindFiltered(s.toasts, s.pending[h].action.id, id);
    assert TimerOwned(s, h);
    if HasId(s.toasts, id) { assert TimerOwned(s, s.timers[id]); }
  }

  lemma {:induction false} StepKeepsSchedule<C(!new)>(s: State<C>, e: Event<C>, id: Id, born: int)
    requires Inv(s) && MayHappen(s, e) && OnSchedule(s, id, born)
    ensures OnSchedule(After(s, e), id, born)
  {
    match e
    case Pushed(content) => PushLeavesSchedule(s, content, id, born);
    case Dismissed(other) => DismissKeepsSchedule(s, other, id, born);
    case Passed(to) =>
    case Fired(h) =>
      if s.pending[h].action.Dismissing? {
        FireIsDismiss(s, h);
        DismissKeepsSchedule(s, s.pending[h].action.id, id, born);
      } else {
        RemoveKeepsSchedule(s, h, id, born);
      }
  }

  lemma {:induction false} RunKeepsSchedule<C(!new)>(s: State<C>, es: seq<Event<C>>, id: Id, born: int)
    requires Inv(s) && MayRun(s, es) && OnSchedule(s, id, born)
    ensures OnSchedule(Ran(s, es), id, born)
    decreases |es|
  {
    if es != [] {
      StepKeeps(s, es[0]);
      StepKeepsSchedule(s, es[0], id, born);
      RunKeepsSchedule(After(s, es[0]), es[1..], id, born);
    }
  }

  lemma {:induction false} NotLate<C(!new)>(s: State<C>, id: Id, born: int)
    requires Inv(s) && OnSchedule(s, id, born)
    ensures HasId(s.toasts, id) ==> s.clock <= born + AUTO_DISMISS_MS + EXIT_MS
  {
    if HasId(s.toasts, id) { assert TimerOwned(s, s.timers[id]); }
  }

  /** Whatever happens after a push, the toast is gone once 7200 ms have passed. */
  lemma {:induction false} GoneInTime<C(!new)>(s: State<C>, content: C, es: seq<Event<C>>)
    requires Inv(s) && MayRun(AfterPush(s, content), es)
    requires Ran(AfterPush(s, content), es).clock > s.clock + AUTO_DISMISS_MS + EXIT_MS
    ensures !HasId(Ran(AfterPush(s, content), es).toasts, MintId(s.seqNo + 1))
  {
    var s1 := AfterPush(s, content);
    var id := MintId(s.seqNo + 1);
    PushKeeps(s, content);
    PushSchedules(s, content);
    RunKeeps(s1, es);
    RunKeepsSchedule(s1, es, id, s.clock);
    NotLate(Ran(s1, es), id, s.clock);
  }

  /** The toast is up, and waits for its auto-dismiss. */
  ghost predicate IsUp<C>(s: State<C>, id: Id, born: int) {
    && OnSchedule(s, id, born) && HasId(s.toasts, id)
    && s.pending[s.timers[id]].action == Dismissing(id)
  }

  lemma {:induction false} UpAcrossDismiss<C(!new)>(s: State<C>, other: Id, id: Id, born: int)
    requires Inv(s) && IsUp(s, id, born) && other != id
    ensures IsUp(AfterDismiss(s, other), id, born)
  {
    DismissKeepsSchedule(s, other, id, born);
    FindMarked(s.toasts, other, id);
    FindHas(s.toasts, other);
    assert TimerOwned(s, s.timers[id]);
    if Find(s.toasts, other).Some? && !Find(s.toasts, other).value.leaving {
      assert ToastTimed(s, Find(s.toasts, other).value);
      assert TimerOwned(s, s.timers[other]);
    }
  }

  lemma {:induction false} StepKeepsUp<C(!new)>(s: State<C>, e: Event<C>, id: Id, born: int)
    requires Inv(s) && MayHappen(s, e) && IsUp(s, id, born)
    requires s.clock < born + AUTO_DISMISS_MS && e != Dismissed(id)
    ensures IsUp(After(s, e), id, born)
  {
    StepKeepsSchedule(s, e, id, born);
    assert TimerOwned(s, s.timers[id]);
    match e
    case Pushed(content) =>
      FindAppend(s.toasts, Toast(MintId(s.seqNo + 1), content, false), id);
      FreshId(s);
    case Dismissed(other) => UpAcrossDismiss(s, other, id, born);
    case Passed(to) =>
    case Fired(h) =>
      assert TimerOwned(s, h);
      if s.pending[h].action.Dismissing? {
        FireIsDismiss(s, h);
        UpAcrossDismiss(s, s.pending[h].action.id, id, born);
      } else {
        FindFiltered(s.toasts, s.pending[h].action.id, id);
      }
  }

  lemma {:induction false} RunKeepsUp<C(!new)>(s: State<C>, es: seq<Event<C>>, id: Id, born: int)
    requires Inv(s) && MayRun(s, es) && IsUp(s, id, born)
    requires Ran(s, es).clock < born + AUTO_DISMISS_MS && Dismissed(id) !in es
    ensures IsUp(Ran(s, es), id, born)
    decreases |es|
  {
    if es != [] {
      RunKeeps(s, es);
      StepKeeps(s, es[0]);
      StepKeepsUp(s, es[0], id, born);
      assert es == [es[0]] + es[1..];
      RunKeepsUp(After(s, es[0]), es[1..], id, born);
    }
  }

  /** And unless it is dismissed it stays up for the whole 7000 ms. */
  lemma {:induction false} StaysUp<C(!new)>(s: State<C>, content: C, es: seq<Event<C>>)
    requires Inv(s) && MayRun(AfterPush(s, content), es)
    requires Ran(AfterPush(s, content), es).clock < s.clock + AUTO_DISMISS_MS
    requires Dismissed(MintId(s.seqNo + 1)) !in es
    ensures var end := Ran(AfterPush(s, content), es);
            var found := Find(end.toasts, MintId(s.seqNo + 1));
            found.Some? && !found.value.leaving
  {
    var s1 := AfterPush(s, content);
    var id := MintId(s.seqNo + 1);
    PushKeeps(s, content);
    PushSchedules(s, content);
    RunKeepsUp(s1, es, id, s.clock);
    RunKeeps(s1, es);
    var end := Ran(s1, es);
    FindHas(end.toasts, id);
    assert ToastTimed(end, Find(end.toasts, id).value);
  }

  // ---------- Time goes on ----------

  /** The pending auto-dismisses. */
  ghost function Dismissals<C>(s: State<C>): set<Handle> {
    set h | h in s.pending && s.pending[h].action.Dismissing?
  }

  lemma {:induction false} Earliest(pending: map<Handle, Timer>) returns (h: Handle)
    requires pending != map[]
    ensures h in pending && forall g :: g in pending ==> pending[h].due <= pending[g].due
    decreases |pending|
  {
    var first :| first in pending;
    var rest := pending - {first};
    assert forall g :: g in pending ==> g == first || (g in rest && rest[g] == pending[g]);
    h := first;
    if rest != map[] {
      var g := Earliest(rest);
      if pending[g].due < pending[first].due { h := g; }
    } else {
      assert forall g :: g in pending ==> g == first;
    }
  }

  lemma {:induction false} DismissUses<C(!new)>(s: State<C>, h: Handle)
    requires Inv(s) && h in s.pending && s.pending[h].action.Dismissing?
    ensures Dismissals(AfterDismiss(s, s.pending[h].action.id)) == Dismissals(s) - {h}
  {
    var id := s.pending[h].action.id;
    FireIsDismiss(s, h);
    assert TimerOwned(s, h);
    assert forall g :: g in s.pending ==> TimerOwned(s, g) && g < s.handles;
  }

  /** Firing uses up an auto-dismiss, or a timer. */
  lemma {:induction false} FireProgress<C(!new)>(s: State<C>, h: Handle)
    requires Inv(s) && h in s.pending
    ensures AfterFire(s, h).clock == s.clock
    ensures s.pending[h].action.Dismissing? ==> |Dismissals(AfterFire(s, h))| < |Dismissals(s)|
    ensures s.pending[h].action.Removing? ==>
      Dismissals(AfterFire(s, h)) == Dismissals(s) && |AfterFire(s, h).pending| < |s.pending|
  {
    assert TimerOwned(s, h);
    if s.pending[h].action.Dismissing? {
      FireIsDismiss(s, h);
      DismissUses(s, h);
      assert h in Dismissals(s);
    }
  }

  lemma {:induction false} RunThen<C>(s: State<C>, e: Event<C>, es: seq<Event<C>>) returns (all: seq<Event<C>>)
    requires MayHappen(s, e) && MayRun(After(s, e), es)
    ensures all == [e] + es && MayRun(s, all) && Ran(s, all) == Ran(After(s, e), es)
  {
    all := [e] + es;
    assert all[1..] == es;
  }

  /** From every state that satisfies the invariant, timers on time let the clock reach any time. */
  lemma {:induction false} TimeGoesOn<C(!new)>(s: State<C>, to: int) returns (es: seq<Event<C>>)
    requires Inv(s) && s.clock <= to
    ensures MayRun(s, es) && Ran(s, es).clock == to
    ensures forall e :: e in es ==> e.Fired? || e.Passed?
    decreases |Dismissals(s)|, |s.pending|
  {
    if MayAdvance(s, to) {
      es := [Passed(to)];
      assert MayRun(After(s, es[0]), es[1..]);
    } else {
      var h := Earliest(s.pending);
      assert TimerOwned(s, h);
      var s1 := s.(clock := s.pending[h].due);
      AdvanceKeeps(s, s1.clock);
      StepKeeps(s1, Fired(h));
      assert Dismissals(s1) == Dismissals(s);
      FireProgress(s1, h);
      var more := TimeGoesOn(AfterFire(s1, h), to);
      es := RunThen(s1, Fired(h), more);
      es := RunThen(s, Passed(s1.clock), es);
    }
  }

  /** So every toast does go: after a push, time and timers alone can take it off. */
  lemma {:induction false} GoesAway<C(!new)>(s: State<C>, content: C) returns (es: seq<Event<C>>)
    requires Inv(s)
    ensures MayRun(AfterPush(s, content), es) && forall e :: e in es ==> e.Fired? || e.Passed?
    ensures !HasId(Ran(AfterPush(s, content), es).toasts, MintId(s.seqNo + 1))
  {
    PushKeeps(s, content);
    es := TimeGoesOn(AfterPush(s, content), s.clock + AUTO_DISMISS_MS + EXIT_MS + 1);
    GoneInTime(s, content, es);
  }
}
