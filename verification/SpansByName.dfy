/** Spans, infra rows and pulses said without their machinery (live-trace/terrain-fold.ts): by how ids
    are spelled and by positions in the log. */
module SpansByName {
  import opened Prelude
  import opened TerrainFold
  import opened InfraRows
  import Decimal

  // ---------- Spans ----------

  /** What stands before the last colon of `id`, or all of it where it has none. */
  predicate IsBaseOf(b: string, id: string) {
    (b == id && ':' !in id) || (b + ":" <= id && ':' !in id[|b| + 1..])
  }

  lemma {:induction false} ColonAfter(id: string, i: nat, k: nat)
    requires k < i < |id| && id[i] == ':'
    ensures ':' in id[k + 1..]
  {
    assert id[k + 1..][i - k - 1] == ':';
  }

  lemma {:induction false} CutAtLast(id: string, i: nat, b: string)
    requires i < |id| && id[i] == ':' && forall j :: i < j < |id| ==> id[j] != ':'
    ensures b == id[..i] <==> (b + ":" <= id && ':' !in id[|b| + 1..])
  {
    if b + ":" <= id {
      assert id[|b|] == (b + ":")[|b|] == ':';
      assert id[..|b|] == b;
      if |b| < i { ColonAfter(id, i, |b|); }
    }
    assert id[..i + 1] == id[..i] + ":";
  }

  lemma {:induction false} HoldsColon(id: string, b: string)
    ensures b + ":" <= id ==> ':' in id
  {
    if b + ":" <= id { assert id[|b|] == (b + ":")[|b|] == ':'; }
  }

  /** The base is what stands before the last colon. */
  lemma {:induction false} BaseIs(id: string, b: string)
    ensures SpanBase(id) == b <==> IsBaseOf(b, id)
  {
    var i := LastIndexOf(id, ':');
    HoldsColon(id, b);
    if i >= 0 { CutAtLast(id, i, b); }
  }

  /** The base of `b:x` is `b` where `x` has no colon, and an id is its own base just where it has none. */
  lemma {:induction false} BaseOfSpan(b: string, x: string)
    ensures ':' !in x ==> SpanBase(b + ":" + x) == b
    ensures SpanBase(b) == b <==> ':' !in b
  {
    var id := b + ":" + x;
    assert id[|b| + 1..] == x && b + ":" <= id;
    BaseIs(id, b);
    BaseIs(b, b);
  }

  /** Two ids of one span. */
  ghost predicate SameSpan(a: string, b: string) {
    exists base :: IsBaseOf(base, a) && IsBaseOf(base, b)
  }

  lemma {:induction false} SameSpanIs(a: string, b: string)
    ensures SameSpan(a, b) <==> SpanBase(a) == SpanBase(b)
  {
    BaseIs(a, SpanBase(a));
    BaseIs(b, SpanBase(b));
    if base :| IsBaseOf(base, a) && IsBaseOf(base, b) {
      BaseIs(a, base);
      BaseIs(b, base);
    }
  }

  /** `a:x` and `a:y` are of one span. */
  lemma {:induction false} SiblingsShare(base: string, x: string, y: string)
    requires ':' !in x && ':' !in y
    ensures SameSpan(base + ":" + x, base + ":" + y)
  {
    BaseOfSpan(base, x);
    BaseOfSpan(base, y);
    SameSpanIs(base + ":" + x, base + ":" + y);
  }

  /** `infra:` and one or more digits. */
  predicate IsInfraId(id: string) {
    "infra:" <= id && |id| > 6 && forall c :: c in id[6..] ==> '0' <= c <= '9'
  }

  ghost predicate HitAt(updates: seq<Update>, eventId: string, i: int) {
    0 <= i < |updates| && updates[i].eventId.Some? && updates[i].eventId.value != "" &&
    SameSpan(updates[i].eventId.value, eventId)
  }

  /** Selecting a span rewinds to the last position whose update has an id of that span, if one has. */
  lemma {:induction false} RewindsToSpan(updates: seq<Update>, eventId: string, found: Option<nat>)
    requires !IsInfraId(eventId)
    ensures RewindsTo(updates, eventId, found) <==>
      match found
      case Some(i) => HitAt(updates, eventId, i) && forall j :: i < j ==> !HitAt(updates, eventId, j)
      case None => forall j :: !HitAt(updates, eventId, j)
  {
    assert InfraSeq(eventId).None?;
    forall i | 0 <= i < |updates| ensures HitAt(updates, eventId, i) <==> OfSpan(updates[i], eventId) {
      if updates[i].eventId.Some? { SameSpanIs(updates[i].eventId.value, eventId); }
    }
  }

  /** Numerals are decimal: one digit for a number below ten, and otherwise the tenth and the last digit. */
  lemma {:induction false} NumeralIs(n: nat, d: nat)
    requires d < 10
    ensures Decimal.Print(d) == ["0123456789"[d]]
    ensures n > 0 ==> Decimal.Print(10 * n + d) == Decimal.Print(n) + ["0123456789"[d]]
    ensures Decimal.PrintInt(n) == Decimal.Print(n)
    ensures n > 0 ==> Decimal.PrintInt(0 - n) == "-" + Decimal.Print(n)
  {
    assert (10 * n + d) / 10 == n && (10 * n + d) % 10 == d;
  }

  function Zeros(k: nat): (s: string)
    ensures |s| == k && forall i :: 0 <= i < k ==> s[i] == '0'
  {
    seq(k, _ => '0')
  }

  lemma {:induction false} ReadOneMore(front: string, d: nat)
    requires d < 10 && forall c :: c in front ==> Decimal.IsDigit(c)
    ensures Decimal.IsNumeral(front + [Decimal.DigitChar(d)])
    ensures Decimal.Read(front + [Decimal.DigitChar(d)]) == 10 * Decimal.Read(front) + d
  {
    assert (front + [Decimal.DigitChar(d)])[..|front|] == front;
  }

  lemma {:induction false} ReadNothing(k: nat)
    ensures Decimal.Read(Zeros(k)) == 0
  {
    if k > 0 {
      assert Zeros(k)[..k - 1] == Zeros(k - 1);
      ReadNothing(k - 1);
    }
  }

  lemma {:induction false} ReadZeros(k: nat, n: nat)
    ensures Decimal.IsNumeral(Zeros(k) + Decimal.Print(n)) && Decimal.Read(Zeros(k) + Decimal.Print(n)) == n
    decreases n
  {
    if n < 10 {
      ReadNothing(k);
      ReadOneMore(Zeros(k), n);
    } else {
      ReadZeros(k, n / 10);
      ReadOneMore(Zeros(k) + Decimal.Print(n / 10), n % 10);
      assert Zeros(k) + Decimal.Print(n) == Zeros(k) + Decimal.Print(n / 10) + [Decimal.DigitChar(n % 10)];
    }
  }

  /** Selecting `infra:n` rewinds to position `n` if there is one, however many zeros `n` is written with. */
  lemma {:induction false} RewindsToNumber(updates: seq<Update>, k: nat, n: nat, eventId: string, found: Option<nat>)
    requires eventId == "infra:" + Zeros(k) + Decimal.Print(n)
    ensures IsInfraId(eventId)
    ensures RewindsTo(updates, eventId, found) <==> found == if n < |updates| then Some(n) else None
  {
    ReadZeros(k, n);
    assert eventId[6..] == Zeros(k) + Decimal.Print(n);
    assert eventId[..6] == "infra:";
  }

  lemma {:induction false} OneMoreZero(k: nat, d: string)
    ensures Zeros(k) + "0" + d == Zeros(k + 1) + d
  {
    assert Zeros(k) + "0" == Zeros(k + 1);
  }

  lemma {:induction false} AppendDigit(k: nat, n: nat, d: nat)
    requires d < 10 && n > 0
    ensures Zeros(k) + Decimal.Print(n) + ["0123456789"[d]] == Zeros(k) + Decimal.Print(10 * n + d)
  {
    NumeralIs(n, d);
  }

  lemma {:induction false} DigitIs(c: char) returns (d: nat)
    requires Decimal.IsDigit(c)
    ensures d < 10 && "0123456789"[d] == c && Decimal.Print(d) == [c]
  {
    d := Decimal.DigitValue(c);
  }

  /** Every infra id is of that form. */
  lemma {:induction false} InfraIdIs(digits: string) returns (k: nat, n: nat)
    requires Decimal.IsNumeral(digits)
    ensures digits == Zeros(k) + Decimal.Print(n)
  {
    var front, last := digits[..|digits| - 1], digits[|digits| - 1];
    assert last in digits && digits == front + [last];
    var d := DigitIs(last);
    if front == [] {
      k, n := 0, d;
      assert Zeros(0) == [];
    } else {
      assert forall c :: c in front ==> c in digits;
      k, n := InfraIdIs(front);
      if n == 0 {
        OneMoreZero(k, [last]);
        k, n := k + 1, d;
      } else {
        AppendDigit(k, n, d);
        n := 10 * n + d;
      }
    }
  }

  // ---------- Infra rows ----------

  predicate Starts(id: Id, family: string) {
    |id| >= |family| && id[..|family|] == family
  }

  /** The agent, the collector, or an element of the three reserved families. */
  predicate OnInfraPlane(id: Id) {
    id in {"agent", "collector"} || Starts(id, "hs:") || Starts(id, "rc:") || Starts(id, "m:agent-")
  }

  predicate InfraAt(updates: seq<Update>, i: int) {
    0 <= i < |updates| && updates[i].eventId.None? && OnInfraPlane(updates[i].targetId)
  }

  lemma {:induction false} InfraAtIs(updates: seq<Update>, i: int)
    requires 0 <= i < |updates|
    ensures InfraAt(updates, i) <==> IsInfra(updates[i])
  {
  }

  /** The infra updates at `i` and `j` are of one moment: one receipt time, or the same update. */
  predicate OneMoment(updates: seq<Update>, i: int, j: int) {
    InfraAt(updates, i) && InfraAt(updates, j) &&
    if updates[i].ts.Some? then updates[i].ts == updates[j].ts else i == j
  }

  lemma {:induction false} OneMomentIs(updates: seq<Update>, i: int, j: int)
    requires NumberedByIndex(updates) && WireTimes(updates) && InfraAt(updates, i) && InfraAt(updates, j)
    ensures OneMoment(updates, i, j) <==> Key(updates[i]) == Key(updates[j])
  {
    WireRowsAreActivities(updates);
    assert updates[i] in updates && updates[j] in updates;
  }

  predicate KeyAt(updates: seq<Update>, key: string, i: int) {
    0 <= i < |updates| && IsInfra(updates[i]) && Key(updates[i]) == key
  }

  /** The first non-empty note with this key. */
  predicate FirstNote(updates: seq<Update>, key: string, i: int) {
    && KeyAt(updates, key, i) && updates[i].note.GetOr("") != ""
    && forall j :: 0 <= j < i && KeyAt(updates, key, j) ==> updates[j].note.GetOr("") == ""
  }

  /** The first target with this key that is not an edge of the agent, or the first of all if all are. */
  ghost predicate FirstTarget(updates: seq<Update>, key: string, i: int) {
    && KeyAt(updates, key, i)
    && if Starts(updates[i].targetId, "m:agent-") then
         && (forall j :: KeyAt(updates, key, j) ==> i <= j)
         && (forall j :: KeyAt(updates, key, j) ==> Starts(updates[j].targetId, "m:agent-"))
       else forall j :: 0 <= j < i && KeyAt(updates, key, j) ==> Starts(updates[j].targetId, "m:agent-")
  }

  lemma {:induction false} KeyAtFront(updates: seq<Update>, key: string)
    requires updates != []
    ensures var n := |updates| - 1;
      forall i :: KeyAt(updates, key, i) <==> KeyAt(updates[..n], key, i) || (i == n && KeyAt(updates, key, n))
  {
  }

  lemma {:induction false} NoneHas(updates: seq<Update>, key: string)
    ensures AccOf(updates, key).None? <==> forall i :: !KeyAt(updates, key, i)
  {
    if updates != [] {
      var n := |updates| - 1;
      NoneHas(updates[..n], key);
      KeyAtFront(updates, key);
      if KeyAt(updates, key, n) {
        assert AccOf(updates, key).Some?;
      } else {
        assert AccOf(updates, key) == AccOf(updates[..n], key);
      }
    }
  }

  lemma {:induction false} NoteIsFirst(updates: seq<Update>, key: string)
    requires AccOf(updates, key).Some?
    ensures var title := AccOf(updates, key).value.title;
      if title == "" then forall i :: KeyAt(updates, key, i) ==> updates[i].note.GetOr("") == ""
      else exists i :: FirstNote(updates, key, i) && updates[i].note == Some(title)
  {
    var n := |updates| - 1;
    var front := updates[..n];
    KeyAtFront(updates, key);
    if AccOf(front, key).Some? {
      NoteIsFirst(front, key);
      if AccOf(front, key).value.title != "" {
        var i :| FirstNote(front, key, i) && front[i].note == Some(AccOf(front, key).value.title);
        assert FirstNote(updates, key, i);
      } else if AccOf(updates, key).value.title != "" {
        assert FirstNote(updates, key, n);
      }
    } else {
      NoneHas(front, key);
      if AccOf(updates, key).value.title != "" { assert FirstNote(updates, key, n); }
    }
  }

  /** The target at `n` takes the place of the one at `i`, an edge of the agent. */
  predicate Overtakes(updates: seq<Update>, key: string, n: nat, i: nat)
    requires n < |updates| && i < |updates|
  {
    KeyAt(updates, key, n) && Starts(updates[i].targetId, "m:agent-") && !Starts(updates[n].targetId, "m:agent-")
  }

  /** The first target keeps its place unless the new one takes it. */
  lemma {:induction false} StillFirst(updates: seq<Update>, key: string, n: nat, i: nat)
    requires n + 1 == |updates| && i < n && FirstTarget(updates[..n], key, i)
    ensures FirstTarget(updates, key, if Overtakes(updates, key, n, i) then n else i)
  {
    KeyAtFront(updates, key);
  }

  lemma {:induction false} OnlyIsFirst(updates: seq<Update>, key: string, n: nat)
    requires n + 1 == |updates| && KeyAt(updates, key, n) && forall i :: !KeyAt(updates[..n], key, i)
    ensures FirstTarget(updates, key, n)
  {
    KeyAtFront(updates, key);
  }

  lemma {:induction false} FirstTargetOf(updates: seq<Update>, key: string) returns (i: nat)
    requires AccOf(updates, key).Some?
    ensures i < |updates| && FirstTarget(updates, key, i)
    ensures updates[i].targetId == AccOf(updates, key).value.targetId
  {
    var n := |updates| - 1;
    var front := updates[..n];
    if AccOf(front, key).Some? {
      i := FirstTargetOf(front, key);
      StillFirst(updates, key, n, i);
      if Overtakes(updates, key, n, i) { i := n; }
    } else {
      NoneHas(front, key);
      OnlyIsFirst(updates, key, n);
      i := n;
    }
  }

  lemma {:induction false} TargetIsFirst(updates: seq<Update>, key: string)
    requires AccOf(updates, key).Some?
    ensures exists i :: FirstTarget(updates, key, i) && updates[i].targetId == AccOf(updates, key).value.targetId
  {
    var i := FirstTargetOf(updates, key);
  }

  // ---------- Pulses ----------

  predicate TouchedBy(updates: seq<Update>, eventId: Option<string>, i: int, x: Id) {
    0 <= i < |updates| && updates[i].eventId == eventId && updates[i].targetId == x
  }

  predicate TouchedWhen(updates: seq<Update>, ts: Option<string>, i: int, x: Id) {
    0 <= i < |updates| && updates[i].eventId.None? && updates[i].ts == ts && updates[i].targetId == x
  }

  /** The pulse at position `k`, by position: everything touched by the event of that update; for an infra
      update everything touched at its receipt time, or without one its own target alone. */
  lemma {:induction false} PulseByIndex(updates: seq<Update>, k: nat, x: Id)
    requires k < |updates|
    ensures updates[k].eventId.Some? ==>
      (x in PulseAt(updates, updates[k]) <==> exists i :: TouchedBy(updates, updates[k].eventId, i, x))
    ensures updates[k].eventId.None? && updates[k].ts.Some? ==>
      (x in PulseAt(updates, updates[k]) <==> exists i :: TouchedWhen(updates, updates[k].ts, i, x))
    ensures updates[k].eventId.None? && updates[k].ts.None? ==> PulseAt(updates, updates[k]) == {updates[k].targetId}
  {
    var b := updates[k];
    if u :| u in updates && SameMoment(u, b) && u.targetId == x {
      var i :| 0 <= i < |updates| && updates[i] == u;
      assert b.eventId.Some? ==> TouchedBy(updates, b.eventId, i, x);
      assert b.eventId.None? && b.ts.Some? ==> TouchedWhen(updates, b.ts, i, x);
    }
    if x == b.targetId {
      assert b.eventId.Some? ==> TouchedBy(updates, b.eventId, k, x);
      assert b.eventId.None? && b.ts.Some? ==> TouchedWhen(updates, b.ts, k, x);
    }
  }

  // ---------- The rows ----------

  /** The title is the first note of the moment, or the target where there is none. */
  ghost predicate TitleSays(updates: seq<Update>, key: string, row: InfraRow) {
    if forall i :: KeyAt(updates, key, i) ==> updates[i].note.GetOr("") == "" then row.title == row.targetId
    else exists i :: FirstNote(updates, key, i) && updates[i].note == Some(row.title)
  }

  /** The row says everything about the moment that ends at its number. */
  ghost predicate RowSays(updates: seq<Update>, row: InfraRow) {
    && InfraAt(updates, row.seqNo)
    && (forall j :: row.seqNo < j ==> !OneMoment(updates, row.seqNo, j))
    && row.id == "infra:" + Decimal.PrintInt(row.seqNo)
    && row.ts == updates[row.seqNo].ts
    && (exists i :: FirstTarget(updates, Key(updates[row.seqNo]), i) && updates[i].targetId == row.targetId)
    && TitleSays(updates, Key(updates[row.seqNo]), row)
  }

  lemma {:induction false} AccTime(updates: seq<Update>, key: string)
    requires WireTimes(updates) && AccOf(updates, key).Some?
    ensures forall i :: KeyAt(updates, key, i) ==> updates[i].ts == AccOf(updates, key).value.ts
  {
    var n := |updates| - 1;
    var front := updates[..n];
    KeyAtFront(updates, key);
    assert WireTimes(front);
    WireRowsAreActivities(updates);
    if AccOf(front, key).Some? {
      AccTime(front, key);
      NoneHas(front, key);
      var i :| KeyAt(front, key, i);
      if KeyAt(updates, key, n) {
        assert updates[i] in updates && updates[n] in updates;
      }
    } else {
      NoneHas(front, key);
    }
  }

  lemma {:induction false} TitleIs(updates: seq<Update>, key: string)
    requires AccOf(updates, key).Some?
    ensures TitleSays(updates, key, AccOf(updates, key).value.Row())
  {
    NoteIsFirst(updates, key);
    var title := AccOf(updates, key).value.title;
    if title != "" {
      var i :| FirstNote(updates, key, i) && updates[i].note == Some(title);
    }
  }

  /** Every row says everything about one moment. */
  lemma {:induction false} RowsSay(updates: seq<Update>, keys: seq<string>, rows: seq<InfraRow>, r: nat)
    requires NumberedByIndex(updates) && WireTimes(updates) && Derived(updates, keys, rows) && r < |rows|
    ensures RowSays(updates, rows[r])
  {
    RowsPartition(updates, keys, rows);
    var n := rows[r].seqNo;
    InfraAtIs(updates, n);
    assert KeyAt(updates, keys[r], n);
    AccTime(updates, keys[r]);
    TargetIsFirst(updates, keys[r]);
    TitleIs(updates, keys[r]);
    forall j | n < j < |updates| && InfraAt(updates, j) ensures !OneMoment(updates, n, j) {
      InfraAtIs(updates, j);
      OneMomentIs(updates, n, j);
    }
  }

  /** And every infra update is of the moment of exactly one row. */
  lemma {:induction false} RowsCover(updates: seq<Update>, keys: seq<string>, rows: seq<InfraRow>, i: nat)
    requires NumberedByIndex(updates) && WireTimes(updates) && Derived(updates, keys, rows) && InfraAt(updates, i)
    ensures exists r :: 0 <= r < |rows| && OneMoment(updates, i, rows[r].seqNo)
    ensures forall q, r | 0 <= q < |rows| && 0 <= r < |rows| ::
      OneMoment(updates, i, rows[q].seqNo) && OneMoment(updates, i, rows[r].seqNo) ==> q == r
  {
    RowsPartition(updates, keys, rows);
    InfraAtIs(updates, i);
    var k :| 0 <= k < |keys| && keys[k] == Key(updates[i]);
    forall r | 0 <= r < |rows| ensures OneMoment(updates, i, rows[r].seqNo) <==> keys[r] == Key(updates[i]) {
      InfraAtIs(updates, rows[r].seqNo);
      OneMomentIs(updates, i, rows[r].seqNo);
    }
  }
}
