/** Infra activities as trace rows, and the fold index and pulse that a selected row resolves to
    (live-trace/terrain-fold.ts). */
module InfraRows {
  import opened Prelude
  import opened TerrainFold
  import Decimal
  import opened Sorting

  // ---------- Selection ids ----------

  /** `id.lastIndexOf(c)`. */
  function LastIndexOf(s: string, c: char): (i: int)
    ensures -1 <= i < |s|
    ensures i >= 0 ==> s[i] == c
    ensures forall j :: i < j < |s| ==> s[j] != c
  {
    if s == [] then -1
    else if s[|s| - 1] == c then |s| - 1
    else LastIndexOf(s[..|s| - 1], c)
  }

  function SpanBase(id: string): string {
    var i := LastIndexOf(id, ':');
    if i == -1 then id else id[..i]
  }

  const INFRA := "infra:"

  /** The number in `infra:<digits>`. */
  function InfraSeq(eventId: string): Option<nat> {
    if INFRA <= eventId && Decimal.IsNumeral(eventId[|INFRA|..]) then Some(Decimal.Read(eventId[|INFRA|..]))
    else None
  }

  /** The update belongs to the span of `eventId`. */
  predicate OfSpan(u: Update, eventId: string) {
    u.eventId.Some? && u.eventId.value != "" && SpanBase(u.eventId.value) == SpanBase(eventId)
  }

  /** The index that selecting `eventId` rewinds to: for an infra row its own number, if in range;
      otherwise the last update of the span, if there is one. */
  ghost predicate RewindsTo(updates: seq<Update>, eventId: string, found: Option<nat>) {
    match InfraSeq(eventId)
    case Some(n) => found == if n < |updates| then Some(n) else None
    case None =>
      match found
      case Some(i) => i < |updates| && OfSpan(updates[i], eventId) && forall j :: i < j < |updates| ==>
        !OfSpan(updates[j], eventId)
      case None => forall j :: 0 <= j < |updates| ==> !OfSpan(updates[j], eventId)
  }

  method FoldIndexForEvent(updates: seq<Update>, eventId: string) returns (found: Option<nat>)
    ensures RewindsTo(updates, eventId, found)
  {
    var infra := InfraSeq(eventId);
    if infra.Some? {
      return if infra.value < |updates| then Some(infra.value) else None;
    }
    var target := SpanBase(eventId);
    found := None;
    for i := 0 to |updates|
      invariant found.Some? ==> found.value < i && OfSpan(updates[found.value], eventId)
      invariant forall j :: 0 <= j < i && (found.Some? ==> found.value < j) ==> !OfSpan(updates[j], eventId)
    {
      var eid := updates[i].eventId;
      if eid.Some? && eid.value != "" && SpanBase(eid.value) == target {
        found := Some(i);
      }
    }
  }

  // ---------- Rows ----------

  const AGENT_EDGE := "m:agent-"

  predicate IsAgentEdge(id: Id) {
    AGENT_EDGE <= id
  }

  predicate IsInfraTarget(id: Id) {
    id == "agent" || id == "collector" || "hs:" <= id || "rc:" <= id || IsAgentEdge(id)
  }

  predicate IsInfra(u: Update) {
    u.eventId.None? && IsInfraTarget(u.targetId)
  }

  /** Updates with one key make up one row: the receipt time, or the update's own number. */
  function Key(u: Update): string {
    match u.ts
    case Some(ts) => ts
    case None => "@" + Decimal.PrintInt(u.seqNo)
  }

  datatype InfraRow = InfraRow(id: string, ts: Option<string>, title: string, targetId: Id, seqNo: int)

  datatype Acc = Acc(seqNo: int, ts: Option<string>, title: string, targetId: Id) {
    /** Take in one more update of the same activity. */
    function Add(u: Update): Acc {
      Acc(
        if u.seqNo > seqNo then u.seqNo else seqNo,
        ts,
        if title == "" && u.note.Some? then u.note.value else title,
        if IsAgentEdge(targetId) && !IsAgentEdge(u.targetId) then u.targetId else targetId)
    }

    function Row(): InfraRow {
      InfraRow(INFRA + Decimal.PrintInt(seqNo), ts, if title == "" then targetId else title, targetId, seqNo)
    }
  }

  function FirstAcc(u: Update): Acc {
    Acc(u.seqNo, u.ts, u.note.GetOr(""), u.targetId)
  }

  /** What the updates of activity `key` add up to. */
  function AccOf(updates: seq<Update>, key: string): Option<Acc> {
    if updates == [] then None
    else
      var before := AccOf(updates[..|updates| - 1], key);
      var u := updates[|updates| - 1];
      if !IsInfra(u) || Key(u) != key then before
      else if before.None? then Some(FirstAcc(u))
      else Some(before.value.Add(u))
  }

  /** `rows` are one per activity, in order of `seqNo`; `keys[i]` is the activity of `rows[i]`. */
  ghost predicate Derived(updates: seq<Update>, keys: seq<string>, rows: seq<InfraRow>) {
    && Distinct(keys)
    && |rows| == |keys|
    && (forall key :: key in keys <==> AccOf(updates, key).Some?)
    && (forall i :: 0 <= i < |rows| ==> AccOf(updates, keys[i]).Some? && rows[i] == AccOf(updates, keys[i]).value.Row())
    && (forall i, j :: 0 <= i < j < |rows| ==> rows[i].seqNo <= rows[j].seqNo)
  }

  ghost predicate DerivedRows(updates: seq<Update>, rows: seq<InfraRow>) {
    exists keys :: Derived(updates, keys, rows)
  }

  predicate EarlierAcc(a: Acc, b: Acc) {
    a.seqNo <= b.seqNo
  }

  /** The keys in the order of their values. */
  lemma {:induction false} KeysInOrder(order: seq<string>, value: string -> Acc) returns (keys: seq<string>)
    requires Distinct(order)
    ensures Distinct(keys)
    ensures forall key :: key in keys <==> key in order
    ensures |keys| == |Sort(EarlierAcc, Map(order, value))|
    ensures forall i :: 0 <= i < |keys| ==> Sort(EarlierAcc, Map(order, value))[i] == value(keys[i])
    ensures forall i, j :: 0 <= i < j < |keys| ==> value(keys[i]).seqNo <= value(keys[j]).seqNo
  {
    var le := (a: string, b: string) => EarlierAcc(value(a), value(b));
    keys := Sort(le, order);
    SortDistinct(le, order);
    SortMembers(le, order);
    SortNatural(le, EarlierAcc, value, order);
    assert Map(keys, value) == Sort(EarlierAcc, Map(order, value));
    assert TotalPreorder(EarlierAcc);
    SortIsSorted(EarlierAcc, Map(order, value));
  }

  function RowsFor(values: seq<Acc>): (rows: seq<InfraRow>)
    ensures |rows| == |values| && forall i :: 0 <= i < |rows| ==> rows[i] == values[i].Row()
  {
    Map(values, (a: Acc) => a.Row())
  }

  /** `[...byKey.values()].sort(...).map(...)` */
  method SortRows(order: seq<string>, byKey: map<string, Acc>) returns (rows: seq<InfraRow>, ghost keys: seq<string>)
    requires Distinct(order)
    requires forall key :: key in order <==> key in byKey
    ensures Distinct(keys) && |rows| == |keys|
    ensures forall key :: key in keys <==> key in byKey
    ensures forall i :: 0 <= i < |rows| ==> rows[i] == byKey[keys[i]].Row()
    ensures forall i, j :: 0 <= i < j < |rows| ==> rows[i].seqNo <= rows[j].seqNo
  {
    var value := (key: string) => if key in byKey then byKey[key] else Acc(0, None, "", "");
    var values := Sort(EarlierAcc, Map(order, value));
    keys := KeysInOrder(order, value);
    assert forall i :: 0 <= i < |values| ==> values[i] == byKey[keys[i]];
    rows := RowsFor(values);
  }

  method DeriveInfraRows(updates: seq<Update>) returns (rows: seq<InfraRow>)
    ensures DerivedRows(updates, rows)
  {
    var order: seq<string> := [];  // a Map keeps its keys in insertion order
    var byKey: map<string, Acc> := map[];
    for i := 0 to |updates|
      invariant Distinct(order)
      invariant forall key :: key in order <==> key in byKey
      invariant forall key :: AccOf(updates[..i], key) == if key in byKey then Some(byKey[key]) else None
    {
      var u := updates[i];
      assert updates[..i + 1][..i] == updates[..i];
      if !IsInfra(u) { continue; }
      var key := Key(u);
      if key !in byKey {
        byKey := byKey[key := FirstAcc(u)];
        order := order + [key];
      } else {
        byKey := byKey[key := byKey[key].Add(u)];
      }
    }
    assert updates[..|updates|] == updates;
    ghost var keys;
    rows, keys := SortRows(order, byKey);
    assert Derived(updates, keys, rows);
  }

  // ---------- Properties ----------

  /** The activity `key` is the non-empty set of infra updates with that key. */
  lemma {:induction false} AccClosedForm(updates: seq<Update>, key: string)
    ensures AccOf(updates, key).Some? <==> exists u :: u in updates && IsInfra(u) && Key(u) == key
    ensures AccOf(updates, key).Some? ==>
      && (exists u :: u in updates && IsInfra(u) && Key(u) == key && u.seqNo == AccOf(updates, key).value.seqNo)
      && (forall u :: u in updates && IsInfra(u) && Key(u) == key ==> u.seqNo <= AccOf(updates, key).value.seqNo)
  {
    if updates != [] {
      var front, last := updates[..|updates| - 1], updates[|updates| - 1];
      AccClosedForm(front, key);
      assert updates == front + [last];
    }
  }

  predicate Member(updates: seq<Update>, key: string, u: Update) {
    u in updates && IsInfra(u) && Key(u) == key
  }

  lemma {:induction false} MemberOfLast(updates: seq<Update>, key: string)
    requires updates != []
    ensures forall u :: Member(updates, key, u) <==>
      || Member(updates[..|updates| - 1], key, u)
      || (u == updates[|updates| - 1] && IsInfra(u) && Key(u) == key)
  {
    assert updates == updates[..|updates| - 1] + [updates[|updates| - 1]];
  }

  /** A row is titled by one of its notes, if any is non-empty, and by its target otherwise. */
  lemma {:induction false} TitleIsANote(updates: seq<Update>, key: string)
    requires AccOf(updates, key).Some?
    ensures var title := AccOf(updates, key).value.title;
      && (title != "" ==> exists u :: Member(updates, key, u) && u.note == Some(title))
      && (title == "" ==> forall u :: Member(updates, key, u) ==> u.note.GetOr("") == "")
  {
    var front := updates[..|updates| - 1];
    MemberOfLast(updates, key);
    AccClosedForm(front, key);
    if AccOf(front, key).Some? {
      TitleIsANote(front, key);
    }
  }

  /** A row shows a target of its activity, and an agent edge only when nothing else was touched. */
  lemma {:induction false} TargetIsShown(updates: seq<Update>, key: string)
    requires AccOf(updates, key).Some?
    ensures var target := AccOf(updates, key).value.targetId;
      && (exists u :: Member(updates, key, u) && u.targetId == target)
      && (IsAgentEdge(target) ==> forall u :: Member(updates, key, u) ==> IsAgentEdge(u.targetId))
  {
    var front := updates[..|updates| - 1];
    MemberOfLast(updates, key);
    AccClosedForm(front, key);
    if AccOf(front, key).Some? {
      TargetIsShown(front, key);
    }
  }

  /** The server numbers the updates by array position. */
  ghost predicate NumberedByIndex(updates: seq<Update>) {
    forall i :: 0 <= i < |updates| ==> updates[i].seqNo == i
  }

  lemma {:induction false} ActivityEndsAtSeq(updates: seq<Update>, key: string)
    requires NumberedByIndex(updates) && AccOf(updates, key).Some?
    ensures var n := AccOf(updates, key).value.seqNo;
      && 0 <= n < |updates| && IsInfra(updates[n]) && Key(updates[n]) == key
      && forall i :: n < i < |updates| && IsInfra(updates[i]) ==> Key(updates[i]) != key
  {
    AccClosedForm(updates, key);
    var n := AccOf(updates, key).value.seqNo;
    var u :| u in updates && IsInfra(u) && Key(u) == key && u.seqNo == n;
    var i :| 0 <= i < |updates| && updates[i] == u;
    assert i == n;
    forall i | n < i < |updates| && IsInfra(updates[i]) ensures Key(updates[i]) != key {
      assert updates[i] in updates;
    }
  }

  /** The rows partition the infra updates: every row ends at one of its own updates, every infra
      update belongs to exactly one row, and the rows run in strictly increasing order. */
  lemma {:induction false} RowsPartition(updates: seq<Update>, keys: seq<string>, rows: seq<InfraRow>)
    requires NumberedByIndex(updates) && Derived(updates, keys, rows)
    ensures forall r :: 0 <= r < |rows| ==>
      && 0 <= rows[r].seqNo < |updates|
      && IsInfra(updates[rows[r].seqNo])
      && Key(updates[rows[r].seqNo]) == keys[r]
      && forall i :: rows[r].seqNo < i < |updates| && IsInfra(updates[i]) ==> Key(updates[i]) != keys[r]
    ensures forall i :: 0 <= i < |updates| && IsInfra(updates[i]) ==> Key(updates[i]) in keys
    ensures forall q, r :: 0 <= q < r < |rows| ==> rows[q].seqNo < rows[r].seqNo && keys[q] != keys[r]
  {
    forall r | 0 <= r < |rows|
      ensures 0 <= rows[r].seqNo < |updates| && IsInfra(updates[rows[r].seqNo]) &&
        Key(updates[rows[r].seqNo]) == keys[r]
      ensures forall i :: rows[r].seqNo < i < |updates| && IsInfra(updates[i]) ==> Key(updates[i]) != keys[r]
    {
      ActivityEndsAtSeq(updates, keys[r]);
    }
    forall i | 0 <= i < |updates| && IsInfra(updates[i]) ensures Key(updates[i]) in keys {
      AccClosedForm(updates, Key(updates[i]));
      assert updates[i] in updates;
    }
  }

  /** Selecting a row rewinds to the last update of its activity. */
  lemma {:induction false} SelectingARowRewinds(updates: seq<Update>, keys: seq<string>, rows: seq<InfraRow>, r: nat,
      found: Option<nat>)
    requires NumberedByIndex(updates) && Derived(updates, keys, rows) && r < |rows|
    requires RewindsTo(updates, rows[r].id, found)
    ensures found == Some(rows[r].seqNo)
  {
    RowsPartition(updates, keys, rows);
    Decimal.ReadPrint(rows[r].seqNo);
    assert rows[r].id[|INFRA|..] == Decimal.Print(rows[r].seqNo);
    assert INFRA <= rows[r].id;
  }

  // ---------- Pulse ----------

  /** The update changed the map in the same event or activity as the boundary update `b`. */
  predicate SameMoment(u: Update, b: Update) {
    if b.eventId.Some? then u.eventId == b.eventId
    else if b.ts.None? then false
    else u.eventId.None? && u.ts == b.ts
  }

  /** The elements touched in the same moment as `b`, and the target of `b`. */
  function PulseAt(updates: seq<Update>, b: Update): set<Id> {
    {b.targetId} + set u | u in updates && SameMoment(u, b) :: u.targetId
  }

  method PulseIdsForIndex(updates: seq<Update>, k: int) returns (ids: set<Id>)
    ensures k < 0 || k >= |updates| ==> ids == {}
    ensures 0 <= k < |updates| ==> ids == PulseAt(updates, updates[k])
  {
    ids := {};
    if k < 0 || k >= |updates| { return; }
    var boundary := updates[k];
    if boundary.eventId.None? {
      if boundary.ts.None? { return {boundary.targetId}; }
      for i := 0 to |updates|
        invariant ids == set u | u in updates[..i] && SameMoment(u, boundary) :: u.targetId
      {
        var u := updates[i];
        assert updates[..i + 1] == updates[..i] + [u];
        if u.eventId.None? && u.ts == boundary.ts { ids := ids + {u.targetId}; }
      }
    } else {
      for i := 0 to |updates|
        invariant ids == set u | u in updates[..i] && SameMoment(u, boundary) :: u.targetId
      {
        var u := updates[i];
        assert updates[..i + 1] == updates[..i] + [u];
        if u.eventId == boundary.eventId { ids := ids + {u.targetId}; }
      }
    }
    assert updates[..|updates|] == updates;
    assert boundary in updates && SameMoment(boundary, boundary);
  }

  /** Two infra updates are of one activity: they share a receipt time, or they are the same update. */
  predicate SameActivity(u: Update, v: Update) {
    if u.ts.Some? || v.ts.Some? then u.ts == v.ts else u.seqNo == v.seqNo
  }

  /** No receipt time is spelled like the key of an anchorless update. */
  ghost predicate NoKeyClash(updates: seq<Update>) {
    forall u, v :: u in updates && v in updates && IsInfra(u) && IsInfra(v) && u.ts.Some? && v.ts.None? ==>
      u.ts.value != "@" + Decimal.PrintInt(v.seqNo)
  }

  /** Rows are exactly the activities iff no key clashes. */
  lemma {:induction false} RowsAreActivities(updates: seq<Update>)
    ensures NoKeyClash(updates) <==>
      forall u, v :: u in updates && v in updates && IsInfra(u) && IsInfra(v) ==>
        (Key(u) == Key(v) <==> SameActivity(u, v))
  {
    if NoKeyClash(updates) {
      forall u, v | u in updates && v in updates && IsInfra(u) && IsInfra(v)
        ensures Key(u) == Key(v) <==> SameActivity(u, v)
      {
        if u.ts.None? && v.ts.None? && Key(u) == Key(v) {
          assert Key(u)[1..] == Decimal.PrintInt(u.seqNo) && Key(v)[1..] == Decimal.PrintInt(v.seqNo);
          Decimal.PrintIntInjective(u.seqNo, v.seqNo);
        }
      }
    } else {
      var u, v :| u in updates && v in updates && IsInfra(u) && IsInfra(v) && u.ts.Some? && v.ts.None? &&
        u.ts.value == "@" + Decimal.PrintInt(v.seqNo);
      assert Key(u) == Key(v) && !SameActivity(u, v);
    }
  }

  /** An update whose target the pulse at a row misses or may miss: it is of the row, but of another
      activity than the update the row ends at. */
  ghost predicate Stray(updates: seq<Update>, key: string, last: Update, u: Update) {
    Member(updates, key, u) && !SameActivity(u, last)
  }

  /** An update of the activity that the row ends at touches `target`. */
  ghost predicate Touched(updates: seq<Update>, key: string, last: Update, target: Id) {
    exists u :: Member(updates, key, u) && SameActivity(u, last) && u.targetId == target
  }

  /** Among the targets of infra updates, the pulse at an infra update shows just those of its activity. */
  lemma {:induction false} PulseIsActivity(updates: seq<Update>, last: Update, target: Id)
    requires NumberedByIndex(updates) && last in updates && IsInfra(last) && IsInfraTarget(target)
    ensures target in PulseAt(updates, last) <==> Touched(updates, Key(last), last, target)
  {
    assert Member(updates, Key(last), last) && SameActivity(last, last);
    if target in PulseAt(updates, last) && target != last.targetId {
      var u :| u in updates && SameMoment(u, last) && u.targetId == target;
      assert Member(updates, Key(last), u) && SameActivity(u, last);
    }
    if Touched(updates, Key(last), last, target) {
      var u :| Member(updates, Key(last), u) && SameActivity(u, last) && u.targetId == target;
      var i, j :| 0 <= i < |updates| && updates[i] == u && 0 <= j < |updates| && updates[j] == last;
    }
  }

  /** The pulse at the index a row rewinds to covers every target of the row exactly when every update
      of another activity that the row has repeats a target of the activity it ends at. */
  lemma {:induction false} PulseCoversExactly(updates: seq<Update>, keys: seq<string>, rows: seq<InfraRow>, r: nat,
      last: Update)
    requires NumberedByIndex(updates) && Derived(updates, keys, rows) && r < |rows|
    requires last in updates && last.seqNo == rows[r].seqNo
    ensures
      && (forall u :: Member(updates, keys[r], u) ==> u.targetId in PulseAt(updates, last))
      <==> (forall u :: Stray(updates, keys[r], last, u) ==> Touched(updates, keys[r], last, u.targetId))
  {
    RowsPartition(updates, keys, rows);
    var i :| 0 <= i < |updates| && updates[i] == last;
    forall u | Member(updates, keys[r], u)
      ensures u.targetId in PulseAt(updates, last) <==> Touched(updates, keys[r], last, u.targetId)
      ensures Touched(updates, keys[r], last, u.targetId) || Stray(updates, keys[r], last, u)
    {
      PulseIsActivity(updates, last, u.targetId);
    }
  }

  /** Without a clash no row mixes activities, and the pulse covers it. */
  lemma {:induction false} PulseCoversRow(updates: seq<Update>, keys: seq<string>, rows: seq<InfraRow>, r: nat,
      last: Update, u: Update)
    requires NumberedByIndex(updates) && NoKeyClash(updates) && Derived(updates, keys, rows) && r < |rows|
    requires last in updates && last.seqNo == rows[r].seqNo && Member(updates, keys[r], u)
    ensures u.targetId in PulseAt(updates, last)
  {
    RowsPartition(updates, keys, rows);
    RowsAreActivities(updates);
    PulseCoversExactly(updates, keys, rows, r, last);
    var i :| 0 <= i < |updates| && updates[i] == last;
  }

  // ---------- Times as the server writes them ----------

  /** A date and time as the server spells it: it opens with the digits of the year. */
  predicate OpensWithDigit(ts: string) {
    ts != "" && '0' <= ts[0] <= '9'
  }

  ghost predicate WireTimes(updates: seq<Update>) {
    forall u :: u in updates && IsInfra(u) && u.ts.Some? ==> OpensWithDigit(u.ts.value)
  }

  /** No such time is spelled like the key of an anchorless update: in every log that the server can
      send, rows are exactly the activities. */
  lemma {:induction false} WireRowsAreActivities(updates: seq<Update>)
    requires WireTimes(updates)
    ensures NoKeyClash(updates)
    ensures forall u, v :: u in updates && v in updates && IsInfra(u) && IsInfra(v) ==>
      (Key(u) == Key(v) <==> SameActivity(u, v))
  {
    forall u, v | u in updates && v in updates && IsInfra(u) && IsInfra(v) && u.ts.Some? && v.ts.None?
      ensures u.ts.value != "@" + Decimal.PrintInt(v.seqNo)
    {
      assert u.ts.value[0] != '@';
    }
    RowsAreActivities(updates);
  }

  /** In such a log, selecting a row lights every element of the row, and no other infra element. */
  lemma {:induction false} WirePulseIsRow(updates: seq<Update>, keys: seq<string>, rows: seq<InfraRow>, r: nat,
      last: Update, target: Id)
    requires NumberedByIndex(updates) && WireTimes(updates) && Derived(updates, keys, rows) && r < |rows|
    requires last in updates && last.seqNo == rows[r].seqNo && IsInfraTarget(target)
    ensures target in PulseAt(updates, last) <==> exists u :: Member(updates, keys[r], u) && u.targetId == target
  {
    RowsPartition(updates, keys, rows);
    var i :| 0 <= i < |updates| && updates[i] == last;
    PulseIsActivity(updates, last, target);
    WireRowsAreActivities(updates);
    if u :| Member(updates, keys[r], u) && u.targetId == target {
      PulseCoversRow(updates, keys, rows, r, last, u);
    }
  }

  /** A string that is no time can clash: the last update is anchorless, the other one carries `@1`,
      and the pulse misses a target. */
  lemma {:induction false} PulseCanMissOnClash()
    ensures var updates := [
        Update(0, NodeTarget, "agent", None, false, false, None, Some("@1"), None),
        Update(1, NodeTarget, "collector", None, false, false, None, None, None)];
      && NumberedByIndex(updates)
      && Key(updates[0]) == Key(updates[1]) && AccOf(updates, Key(updates[0])).Some?
      && "agent" !in PulseAt(updates, updates[1])
  {
    var a := Update(0, NodeTarget, "agent", None, false, false, None, Some("@1"), None);
    var b := Update(1, NodeTarget, "collector", None, false, false, None, None, None);
    AccClosedForm([a, b], "@1");
    assert a in [a, b] && IsInfra(a) && Key(a) == "@1";
    assert Decimal.PrintInt(1) == "1";
    assert b.targetId[0] != a.targetId[0];
  }
}
