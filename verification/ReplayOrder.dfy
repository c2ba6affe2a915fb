/** Order of the replay (replay/replay-order.ts): the agent's own chronology, and the merge with
    infrastructure activities that run on another clock. */
module ReplayOrder {
  import opened Prelude
  import opened Sorting

  /** A time field: missing, present but unreadable (the empty string included), or a readable moment. */
  datatype Stamp = Absent | Unreadable | At(ms: int) {
    function Finite(): Option<int> {
      if At? then Some(ms) else None
    }
  }

  /** The kinds the timeline tells apart. */
  datatype Kind = TerminalCommand | TerminalOutput | OtherKind(name: string)

  datatype AgentEvent = AgentEvent(
    id: string, kind: Kind, ts: Stamp, receivedAt: Stamp,
    signal: Option<string>, rawSeq: int, groupId: Option<string>)

  /** What is assumed of `localeCompare`: it orders all strings, possibly with ties. */
  ghost predicate Collates(cmp: (string, string) -> int) {
    && (forall x, y :: cmp(x, y) <= 0 <==> cmp(y, x) >= 0)
    && (forall x, y, z :: cmp(x, y) <= 0 && cmp(y, z) <= 0 ==> cmp(x, z) <= 0)
  }

  /** Different times decide, a missing one being the later; `None` leaves the decision to the rest. */
  function CompareTimes(a: Option<int>, b: Option<int>): Option<int> {
    if a == b then None
    else if a.None? then Some(1)
    else if b.None? then Some(-1)
    else Some(a.value - b.value)
  }

  function CompareAgentEvents(cmp: (string, string) -> int, a: AgentEvent, b: AgentEvent): int {
    match CompareTimes(a.ts.Finite(), b.ts.Finite())
    case Some(c) => c
    case None =>
      var signal := cmp(a.signal.GetOr("trace"), b.signal.GetOr("trace"));
      if signal != 0 then signal
      else if a.rawSeq != b.rawSeq then a.rawSeq - b.rawSeq
      else cmp(a.id, b.id)
  }

  function EventLe(cmp: (string, string) -> int): (AgentEvent, AgentEvent) -> bool {
    (a, b) => CompareAgentEvents(cmp, a, b) <= 0
  }

  function SortAgentEvents(cmp: (string, string) -> int, events: seq<AgentEvent>): seq<AgentEvent> {
    Sort(EventLe(cmp), events)
  }

  lemma {:induction false} CollatesBothWays(cmp: (string, string) -> int, x: string, y: string)
    requires Collates(cmp)
    ensures cmp(x, y) <= 0 <==> cmp(y, x) >= 0
    ensures cmp(x, y) >= 0 <==> cmp(y, x) <= 0
  {
  }

  lemma {:induction false} EventOrderTransitive(cmp: (string, string) -> int, a: AgentEvent, b: AgentEvent,
      c: AgentEvent)
    requires Collates(cmp)
    requires CompareAgentEvents(cmp, a, b) <= 0 && CompareAgentEvents(cmp, b, c) <= 0
    ensures CompareAgentEvents(cmp, a, c) <= 0
  {
    var sa, sb, sc := a.signal.GetOr("trace"), b.signal.GetOr("trace"), c.signal.GetOr("trace");
    if a.ts.Finite() == b.ts.Finite() && b.ts.Finite() == c.ts.Finite() {
      CollatesBothWays(cmp, sa, sb);
      CollatesBothWays(cmp, sb, sc);
      CollatesBothWays(cmp, sa, sc);
      assert cmp(sa, sb) <= 0 && cmp(sb, sc) <= 0;
      assert cmp(sa, sc) <= 0;
      if cmp(sa, sc) == 0 {
        assert cmp(sc, sa) <= 0;
        assert cmp(sc, sb) <= 0 && cmp(sb, sa) <= 0;
        if a.rawSeq == b.rawSeq == c.rawSeq {
          assert cmp(a.id, b.id) <= 0 && cmp(b.id, c.id) <= 0;
        }
      }
    }
  }

  /** The comparator is consistent, whatever times are missing. */
  lemma {:induction false} EventOrderIsTotal(cmp: (string, string) -> int)
    requires Collates(cmp)
    ensures TotalPreorder(EventLe(cmp))
  {
    forall a, b, c | EventLe(cmp)(a, b) && EventLe(cmp)(b, c) ensures EventLe(cmp)(a, c) {
      EventOrderTransitive(cmp, a, b, c);
    }
    forall a, b ensures EventLe(cmp)(a, b) || EventLe(cmp)(b, a) {
      CollatesBothWays(cmp, a.signal.GetOr("trace"), b.signal.GetOr("trace"));
      CollatesBothWays(cmp, a.id, b.id);
    }
  }

  /** Events that compare equal have ids that collate equal. */
  lemma {:induction false} EventTies(cmp: (string, string) -> int, a: AgentEvent, b: AgentEvent)
    requires Collates(cmp) && EventLe(cmp)(a, b) && EventLe(cmp)(b, a)
    ensures cmp(a.id, b.id) == 0
  {
    CollatesBothWays(cmp, a.signal.GetOr("trace"), b.signal.GetOr("trace"));
    CollatesBothWays(cmp, a.id, b.id);
  }

  // ---------- Merging two clocks ----------

  datatype MergeEntry<A, I> = Agent(agent: A) | Infra(infra: I)

  datatype Options<!A, !I> = Options(agentReceipt: A -> Stamp, infraTime: I -> Stamp, infraSequence: I -> int)

  /** Infra items in server time, anchorless ones last, then by sequence number. */
  predicate InfraBefore<A, I>(o: Options<A, I>, a: I, b: I) {
    match CompareTimes(o.infraTime(a).Finite(), o.infraTime(b).Finite())
    case Some(c) => c <= 0
    case None => o.infraSequence(a) <= o.infraSequence(b)
  }

  function InfraLe<A, I>(o: Options<A, I>): (I, I) -> bool {
    (a, b) => InfraBefore(o, a, b)
  }

  function OrderInfra<A, I>(o: Options<A, I>, infra: seq<I>): seq<I> {
    Sort(InfraLe(o), infra)
  }

  /** The server had received this agent item before time `t`. */
  predicate ReceivedBefore<A, I>(o: Options<A, I>, agent: A, t: int) {
    o.agentReceipt(agent).At? && o.agentReceipt(agent).ms < t
  }

  /** `p` is how many agent items come before the infra item: all of them for an anchorless one,
      otherwise up to and including the last one received strictly before it. */
  ghost predicate BelongsAt<A, I>(o: Options<A, I>, agents: seq<A>, item: I, p: nat) {
    match o.infraTime(item).Finite()
    case None => p == |agents|
    case Some(t) =>
      && p <= |agents|
      && (p > 0 ==> ReceivedBefore(o, agents[p - 1], t))
      && (forall a :: p <= a < |agents| ==> !ReceivedBefore(o, agents[a], t))
  }

  function Boundary<A, I>(o: Options<A, I>, agents: seq<A>, t: int): nat {
    if agents == [] then 0
    else if ReceivedBefore(o, agents[|agents| - 1], t) then |agents|
    else Boundary(o, agents[..|agents| - 1], t)
  }

  function Place<A, I>(o: Options<A, I>, agents: seq<A>, item: I): nat {
    match o.infraTime(item).Finite()
    case None => |agents|
    case Some(t) => Boundary(o, agents, t)
  }

  lemma {:induction false} BoundaryIsLast<A, I>(o: Options<A, I>, agents: seq<A>, t: int)
    ensures var p := Boundary(o, agents, t);
      && p <= |agents|
      && (p > 0 ==> ReceivedBefore(o, agents[p - 1], t))
      && (forall a :: p <= a < |agents| ==> !ReceivedBefore(o, agents[a], t))
  {
    if agents != [] && !ReceivedBefore(o, agents[|agents| - 1], t) {
      BoundaryIsLast(o, agents[..|agents| - 1], t);
    }
  }

  lemma {:induction false} PlaceIsUnique<A, I>(o: Options<A, I>, agents: seq<A>, item: I, p: nat)
    ensures BelongsAt(o, agents, item, p) <==> p == Place(o, agents, item)
  {
    if o.infraTime(item).At? {
      BoundaryIsLast(o, agents, o.infraTime(item).ms);
    }
  }

  /** The items whose place is `p`, in order. */
  function Bucket<A, I>(o: Options<A, I>, agents: seq<A>, items: seq<I>, p: nat): seq<I> {
    if items == [] then []
    else Bucket(o, agents, items[..|items| - 1], p) +
         if Place(o, agents, items[|items| - 1]) == p then [items[|items| - 1]] else []
  }

  function Infras<A, I>(items: seq<I>): (r: seq<MergeEntry<A, I>>)
    ensures |r| == |items| && forall i :: 0 <= i < |r| ==> r[i] == Infra(items[i])
  {
    seq(|items|, i requires 0 <= i < |items| => Infra(items[i]))
  }

  /** The first `p` agent items, each preceded by the infra items that belong right before it. */
  function MergedUpTo<A, I>(o: Options<A, I>, agents: seq<A>, items: seq<I>, p: nat): seq<MergeEntry<A, I>>
    requires p <= |agents|
  {
    if p == 0 then []
    else MergedUpTo(o, agents, items, p - 1) + Infras(Bucket(o, agents, items, p - 1)) + [Agent(agents[p - 1])]
  }

  function Merged<A, I>(o: Options<A, I>, agents: seq<A>, infra: seq<I>): seq<MergeEntry<A, I>> {
    var items := OrderInfra(o, infra);
    MergedUpTo(o, agents, items, |agents|) + Infras(Bucket(o, agents, items, |agents|))
  }

  lemma {:induction false} MergeStep<A, I>(o: Options<A, I>, agents: seq<A>, items: seq<I>, p: nat, bucket: seq<I>)
    requires p < |agents| && bucket == Bucket(o, agents, items, p)
    ensures MergedUpTo(o, agents, items, p + 1) == MergedUpTo(o, agents, items, p) + Infras(bucket) + [Agent(agents[p])]
  {
  }

  method FindBoundary<A, I>(agents: seq<A>, options: Options<A, I>, systemTs: int) returns (boundary: nat)
    ensures boundary == Boundary(options, agents, systemTs) <= |agents|
  {
    boundary := 0;
    for index := 0 to |agents|
      invariant boundary == Boundary(options, agents[..index], systemTs) <= index
    {
      assert agents[..index + 1][..index] == agents[..index];
      var receipt := options.agentReceipt(agents[index]).Finite();
      if receipt.Some? && receipt.value < systemTs { boundary := index + 1; }
    }
    assert agents[..|agents|] == agents;
  }

  method FillBuckets<A, I>(agents: seq<A>, orderedInfra: seq<I>, options: Options<A, I>)
    returns (buckets: array<seq<I>>)
    ensures fresh(buckets) && buckets.Length == |agents| + 1
    ensures forall p :: 0 <= p <= |agents| ==> buckets[p] == Bucket(options, agents, orderedInfra, p)
  {
    buckets := new seq<I>[|agents| + 1](_ => []);
    for i := 0 to |orderedInfra|
      invariant forall p :: 0 <= p <= |agents| ==> buckets[p] == Bucket(options, agents, orderedInfra[..i], p)
    {
      var systemItem := orderedInfra[i];
      assert orderedInfra[..i + 1][..i] == orderedInfra[..i];
      var systemTs := options.infraTime(systemItem).Finite();
      if systemTs.None? {
        buckets[|agents|] := buckets[|agents|] + [systemItem];
        continue;
      }
      var boundary := FindBoundary(agents, options, systemTs.value);
      buckets[boundary] := buckets[boundary] + [systemItem];
    }
    assert orderedInfra[..|orderedInfra|] == orderedInfra;
  }

  method MergeAgentAndInfra<A, I>(agents: seq<A>, infra: seq<I>, options: Options<A, I>)
    returns (merged: seq<MergeEntry<A, I>>)
    ensures merged == Merged(options, agents, infra)
  {
    var orderedInfra := OrderInfra(options, infra);
    var filled := FillBuckets(agents, orderedInfra, options);
    var buckets := filled[..];
    merged := [];
    for boundary := 0 to |agents|
      invariant merged == MergedUpTo(options, agents, orderedInfra, boundary)
    {
      MergeStep(options, agents, orderedInfra, boundary, buckets[boundary]);
      merged := merged + Infras(buckets[boundary]);
      merged := merged + [Agent(agents[boundary])];
    }
    merged := merged + Infras(buckets[|agents|]);
  }

  // ---------- Properties ----------

  lemma {:induction false} InfraOrderIsTotal<A, I(!new)>(o: Options<A, I>)
    ensures TotalPreorder(InfraLe(o))
  {
  }

  /** The infra items are a permutation in server order, the anchorless ones after all others. */
  lemma {:induction false} OrderInfraSorted<A, I(!new)>(o: Options<A, I>, infra: seq<I>)
    ensures var items := OrderInfra(o, infra);
      && multiset(items) == multiset(infra)
      && Sorted(InfraLe(o), items)
      && forall i, j :: 0 <= i < j < |items| && o.infraTime(items[j]).At? ==>
           && o.infraTime(items[i]).At?
           && o.infraTime(items[i]).ms <= o.infraTime(items[j]).ms
           && (o.infraTime(items[i]).ms == o.infraTime(items[j]).ms ==>
             o.infraSequence(items[i]) <= o.infraSequence(items[j]))
  {
    var items := OrderInfra(o, infra);
    InfraOrderIsTotal(o);
    SortIsSorted(InfraLe(o), infra);
    forall i, j | 0 <= i < j < |items| ensures InfraBefore(o, items[i], items[j]) {
      assert InfraLe(o)(items[i], items[j]);
    }
  }

  function AgentsOf<A, I>(merged: seq<MergeEntry<A, I>>): seq<A> {
    if merged == [] then []
    else AgentsOf(merged[..|merged| - 1]) + if merged[|merged| - 1].Agent? then [merged[|merged| - 1].agent] else []
  }

  function InfraOf<A, I>(merged: seq<MergeEntry<A, I>>): seq<I> {
    if merged == [] then []
    else InfraOf(merged[..|merged| - 1]) + if merged[|merged| - 1].Infra? then [merged[|merged| - 1].infra] else []
  }

  lemma {:induction false} ProjectionsAppend<A, I>(a: seq<MergeEntry<A, I>>, b: seq<MergeEntry<A, I>>)
    ensures AgentsOf(a + b) == AgentsOf(a) + AgentsOf(b)
    ensures InfraOf(a + b) == InfraOf(a) + InfraOf(b)
  {
    if b == [] {
      assert a + b == a;
    } else {
      assert (a + b)[..|a + b| - 1] == a + b[..|b| - 1];
      ProjectionsAppend(a, b[..|b| - 1]);
    }
  }

  lemma {:induction false} ProjectionsOfInfras<A, I>(items: seq<I>)
    ensures AgentsOf<A, I>(Infras(items)) == []
    ensures InfraOf<A, I>(Infras(items)) == items
  {
    if items != [] {
      ProjectionsOfInfras<A, I>(items[..|items| - 1]);
      assert Infras<A, I>(items)[..|items| - 1] == Infras(items[..|items| - 1]);
    }
  }

  lemma {:induction false} BoundaryMonotone<A, I>(o: Options<A, I>, agents: seq<A>, t: int, u: int)
    requires t <= u
    ensures Boundary(o, agents, t) <= Boundary(o, agents, u) <= |agents|
  {
    if agents != [] {
      BoundaryMonotone(o, agents[..|agents| - 1], t, u);
    }
  }

  /** A later infra item never belongs further up. */
  lemma {:induction false} PlaceMonotone<A, I>(o: Options<A, I>, agents: seq<A>, x: I, y: I)
    requires InfraBefore(o, x, y)
    ensures Place(o, agents, x) <= Place(o, agents, y) <= |agents|
  {
    var tx, ty := o.infraTime(x).Finite(), o.infraTime(y).Finite();
    if tx.Some? && ty.Some? {
      BoundaryMonotone(o, agents, tx.value, ty.value);
    } else if tx.Some? {
      BoundaryMonotone(o, agents, tx.value, tx.value);
    }
  }

  ghost predicate PlacesAscend<A, I>(o: Options<A, I>, agents: seq<A>, items: seq<I>) {
    items == [] ||
    (PlacesAscend(o, agents, items[..|items| - 1]) &&
     forall x :: x in items[..|items| - 1] ==> Place(o, agents, x) <= Place(o, agents, items[|items| - 1]))
  }

  /** The items whose place is before `p`, in order. */
  ghost function Below<A, I>(o: Options<A, I>, agents: seq<A>, items: seq<I>, p: nat): seq<I> {
    if items == [] then []
    else Below(o, agents, items[..|items| - 1], p) +
         if Place(o, agents, items[|items| - 1]) < p then [items[|items| - 1]] else []
  }

  lemma {:induction false} BelowAll<A, I>(o: Options<A, I>, agents: seq<A>, items: seq<I>, p: nat)
    requires forall i :: 0 <= i < |items| ==> Place(o, agents, items[i]) < p
    ensures Below(o, agents, items, p) == items
  {
    if items != [] {
      BelowAll(o, agents, items[..|items| - 1], p);
    }
  }

  lemma {:induction false} BucketNone<A, I>(o: Options<A, I>, agents: seq<A>, items: seq<I>, p: nat)
    requires forall i :: 0 <= i < |items| ==> Place(o, agents, items[i]) != p
    ensures Bucket(o, agents, items, p) == []
  {
    if items != [] {
      BucketNone(o, agents, items[..|items| - 1], p);
    }
  }

  lemma {:induction false} BelowNone<A, I>(o: Options<A, I>, agents: seq<A>, items: seq<I>)
    ensures Below(o, agents, items, 0) == []
  {
    if items != [] {
      BelowNone(o, agents, items[..|items| - 1]);
    }
  }

  lemma {:induction false} BelowStep<A, I>(o: Options<A, I>, agents: seq<A>, items: seq<I>, p: nat)
    requires PlacesAscend(o, agents, items)
    ensures Below(o, agents, items, p + 1) == Below(o, agents, items, p) + Bucket(o, agents, items, p)
  {
    if items != [] {
      var front, last := items[..|items| - 1], items[|items| - 1];
      BelowStep(o, agents, front, p);
      if Place(o, agents, last) < p {
        BucketNone(o, agents, front, p);
      }
    }
  }

  lemma {:induction false} BucketMembers<A, I>(o: Options<A, I>, agents: seq<A>, items: seq<I>, p: nat)
    ensures forall x :: x in Bucket(o, agents, items, p) ==> Place(o, agents, x) == p
  {
    if items != [] {
      BucketMembers(o, agents, items[..|items| - 1], p);
    }
  }

  /** An infra item at position `m` has exactly as many agent items before it as its place says. */
  ghost predicate PlacedAt<A, I>(o: Options<A, I>, agents: seq<A>, merged: seq<MergeEntry<A, I>>, m: nat)
    requires m < |merged|
  {
    merged[m].Infra? ==> |AgentsOf(merged[..m])| == Place(o, agents, merged[m].infra)
  }

  ghost predicate WellPlaced<A, I>(o: Options<A, I>, agents: seq<A>, merged: seq<MergeEntry<A, I>>) {
    forall m :: 0 <= m < |merged| ==> PlacedAt(o, agents, merged, m)
  }

  lemma {:induction false} WellPlacedInfras<A, I>(o: Options<A, I>, agents: seq<A>, merged: seq<MergeEntry<A, I>>,
      items: seq<I>)
    requires WellPlaced(o, agents, merged)
    requires forall x :: x in items ==> Place(o, agents, x) == |AgentsOf(merged)|
    ensures WellPlaced(o, agents, merged + Infras(items))
  {
    var all := merged + Infras(items);
    forall m | 0 <= m < |all| ensures PlacedAt(o, agents, all, m) {
      if m < |merged| {
        assert PlacedAt(o, agents, merged, m);
        assert all[..m] == merged[..m];
      } else {
        var k := m - |merged|;
        assert all[..m] == merged + Infras(items[..k]);
        ProjectionsAppend(merged, Infras(items[..k]));
        ProjectionsOfInfras<A, I>(items[..k]);
        assert all[m] == Infra(items[k]) && items[k] in items;
      }
    }
  }

  lemma {:induction false} WellPlacedAgent<A, I>(o: Options<A, I>, agents: seq<A>, merged: seq<MergeEntry<A, I>>,
      agent: A)
    requires WellPlaced(o, agents, merged)
    ensures WellPlaced(o, agents, merged + [Agent(agent)])
  {
    var all := merged + [Agent(agent)];
    forall m | 0 <= m < |all| ensures PlacedAt(o, agents, all, m) {
      if m < |merged| {
        assert PlacedAt(o, agents, merged, m);
        assert all[..m] == merged[..m];
      }
    }
  }

  lemma {:induction false} AddBucket<A, I>(o: Options<A, I>, agents: seq<A>, items: seq<I>, p: nat,
      merged: seq<MergeEntry<A, I>>)
    requires |AgentsOf(merged)| == p && WellPlaced(o, agents, merged)
    ensures var all := merged + Infras(Bucket(o, agents, items, p));
      && AgentsOf(all) == AgentsOf(merged)
      && InfraOf(all) == InfraOf(merged) + Bucket(o, agents, items, p)
      && WellPlaced(o, agents, all)
  {
    BucketMembers(o, agents, items, p);
    WellPlacedInfras(o, agents, merged, Bucket(o, agents, items, p));
    ProjectionsAppend(merged, Infras(Bucket(o, agents, items, p)));
    ProjectionsOfInfras<A, I>(Bucket(o, agents, items, p));
  }

  lemma {:induction false} ProjectAgent<A, I>(merged: seq<MergeEntry<A, I>>, agent: A)
    ensures AgentsOf(merged + [Agent(agent)]) == AgentsOf(merged) + [agent]
    ensures InfraOf(merged + [Agent(agent)]) == InfraOf(merged)
  {
    assert (merged + [Agent(agent)])[..|merged|] == merged;
  }

  lemma {:induction false} AddAgent<A, I>(o: Options<A, I>, agents: seq<A>, p: nat, merged: seq<MergeEntry<A, I>>)
    requires p < |agents| && AgentsOf(merged) == agents[..p] && WellPlaced(o, agents, merged)
    ensures AgentsOf(merged + [Agent(agents[p])]) == agents[..p + 1]
    ensures InfraOf(merged + [Agent(agents[p])]) == InfraOf(merged)
    ensures WellPlaced(o, agents, merged + [Agent(agents[p])])
  {
    WellPlacedAgent(o, agents, merged, agents[p]);
    ProjectAgent(merged, agents[p]);
    assert agents[..p + 1] == agents[..p] + [agents[p]];
  }

  lemma {:induction false} MergedUpToShape<A, I>(o: Options<A, I>, agents: seq<A>, items: seq<I>, p: nat)
    requires p <= |agents| && PlacesAscend(o, agents, items)
    ensures AgentsOf(MergedUpTo(o, agents, items, p)) == agents[..p]
    ensures InfraOf(MergedUpTo(o, agents, items, p)) == Below(o, agents, items, p)
    ensures WellPlaced(o, agents, MergedUpTo(o, agents, items, p))
  {
    if p == 0 {
      BelowNone(o, agents, items);
    } else {
      MergedUpToShape(o, agents, items, p - 1);
      BelowStep(o, agents, items, p - 1);
      AddBucket(o, agents, items, p - 1, MergedUpTo(o, agents, items, p - 1));
      AddAgent(o, agents, p - 1, MergedUpTo(o, agents, items, p - 1) + Infras(Bucket(o, agents, items, p - 1)));
    }
  }

  /** The agent items before an infra item are those up to the last one received strictly before it. */
  ghost predicate BelongsWhereItIs<A, I>(o: Options<A, I>, agents: seq<A>, merged: seq<MergeEntry<A, I>>, m: nat)
    requires m < |merged|
  {
    merged[m].Infra? ==> BelongsAt(o, agents, merged[m].infra, |AgentsOf(merged[..m])|)
  }

  /** The three facts that define a merge: the agent items in their given order, the infra items in
      server order, and every infra item where the receipts put it. */
  ghost predicate IsMerge<A, I>(o: Options<A, I>, agents: seq<A>, infra: seq<I>, merged: seq<MergeEntry<A, I>>) {
    && AgentsOf(merged) == agents
    && InfraOf(merged) == OrderInfra(o, infra)
    && forall m :: 0 <= m < |merged| ==> BelongsWhereItIs(o, agents, merged, m)
  }

  lemma {:induction false} SortedAscends<A, I>(o: Options<A, I>, agents: seq<A>, items: seq<I>)
    requires Sorted(InfraLe(o), items)
    ensures PlacesAscend(o, agents, items)
  {
    if items != [] {
      var front, last := items[..|items| - 1], items[|items| - 1];
      SortedAscends(o, agents, front);
      forall x | x in front ensures Place(o, agents, x) <= Place(o, agents, last) {
        PlaceMonotone(o, agents, x, last);
      }
    }
  }

  lemma {:induction false} OrderedInfraAscends<A, I(!new)>(o: Options<A, I>, agents: seq<A>, infra: seq<I>)
    ensures PlacesAscend(o, agents, OrderInfra(o, infra))
    ensures Below(o, agents, OrderInfra(o, infra), |agents| + 1) == OrderInfra(o, infra)
  {
    var items := OrderInfra(o, infra);
    InfraOrderIsTotal(o);
    SortIsSorted(InfraLe(o), infra);
    SortedAscends(o, agents, items);
    forall i | 0 <= i < |items| ensures Place(o, agents, items[i]) < |agents| + 1 {
      PlaceMonotone(o, agents, items[i], items[i]);
    }
    BelowAll(o, agents, items, |agents| + 1);
  }

  lemma {:induction false} MergedShape<A, I(!new)>(o: Options<A, I>, agents: seq<A>, infra: seq<I>)
    ensures AgentsOf(Merged(o, agents, infra)) == agents
    ensures InfraOf(Merged(o, agents, infra)) == OrderInfra(o, infra)
    ensures WellPlaced(o, agents, Merged(o, agents, infra))
  {
    var items := OrderInfra(o, infra);
    OrderedInfraAscends(o, agents, infra);
    MergedUpToShape(o, agents, items, |agents|);
    BelowStep(o, agents, items, |agents|);
    AddBucket(o, agents, items, |agents|, MergedUpTo(o, agents, items, |agents|));
    assert agents[..|agents|] == agents;
  }

  lemma {:induction false} PlacedIsBelonging<A, I>(o: Options<A, I>, agents: seq<A>, x: seq<MergeEntry<A, I>>)
    requires WellPlaced(o, agents, x)
    ensures forall m :: 0 <= m < |x| ==> BelongsWhereItIs(o, agents, x, m)
  {
    forall m | 0 <= m < |x| ensures BelongsWhereItIs(o, agents, x, m) {
      assert PlacedAt(o, agents, x, m);
      if x[m].Infra? {
        PlaceIsUnique(o, agents, x[m].infra, |AgentsOf(x[..m])|);
      }
    }
  }

  lemma {:induction false} MergeIsInterleaving<A, I(!new)>(o: Options<A, I>, agents: seq<A>, infra: seq<I>)
    ensures IsMerge(o, agents, infra, Merged(o, agents, infra))
  {
    MergedShape(o, agents, infra);
    PlacedIsBelonging(o, agents, Merged(o, agents, infra));
  }

  lemma {:induction false} BelongingIsPlaced<A, I>(o: Options<A, I>, agents: seq<A>, x: seq<MergeEntry<A, I>>)
    requires forall m :: 0 <= m < |x| ==> BelongsWhereItIs(o, agents, x, m)
    ensures WellPlaced(o, agents, x)
  {
    forall m | 0 <= m < |x| ensures PlacedAt(o, agents, x, m) {
      assert BelongsWhereItIs(o, agents, x, m);
      if x[m].Infra? {
        PlaceIsUnique(o, agents, x[m].infra, |AgentsOf(x[..m])|);
      }
    }
  }

  lemma {:induction false} LastInfra<A, I>(y: seq<MergeEntry<A, I>>, item: I) returns (m: nat)
    requires InfraOf(y) != [] && InfraOf(y)[|InfraOf(y)| - 1] == item
    ensures m < |y| && y[m] == Infra(item)
  {
    if y[|y| - 1].Infra? {
      m := |y| - 1;
    } else {
      m := LastInfra(y[..|y| - 1], item);
    }
  }

  lemma {:induction false} AgentsOfPrefix<A, I>(y: seq<MergeEntry<A, I>>, m: nat)
    requires m <= |y|
    ensures |AgentsOf(y[..m])| <= |AgentsOf(y)|
  {
    assert y == y[..m] + y[m..];
    ProjectionsAppend(y[..m], y[m..]);
  }

  lemma {:induction false} SplitLast<A, I>(x: seq<MergeEntry<A, I>>)
    requires x != []
    ensures var front, a, i := x[..|x| - 1], AgentsOf(x), InfraOf(x);
      if x[|x| - 1].Agent? then
        a != [] && AgentsOf(front) == a[..|a| - 1] && x[|x| - 1].agent == a[|a| - 1] && InfraOf(front) == i
      else
        i != [] && InfraOf(front) == i[..|i| - 1] && x[|x| - 1].infra == i[|i| - 1] && AgentsOf(front) == a
  {
  }

  /** If one merge ends with an infra item, so does every other. */
  lemma {:induction false} LastInfraIsLate<A, I>(o: Options<A, I>, agents: seq<A>, x: seq<MergeEntry<A, I>>,
      y: seq<MergeEntry<A, I>>)
    requires AgentsOf(x) == AgentsOf(y) && InfraOf(x) == InfraOf(y)
    requires WellPlaced(o, agents, x) && WellPlaced(o, agents, y)
    requires x != [] && x[|x| - 1].Infra? && y != []
    ensures y[|y| - 1].Infra?
  {
    var item := x[|x| - 1].infra;
    SplitLast(x);
    assert PlacedAt(o, agents, x, |x| - 1);
    if y[|y| - 1].Agent? {
      SplitLast(y);
      var front := y[..|y| - 1];
      var m := LastInfra(front, item);
      assert front[..m] == y[..m];
      assert PlacedAt(o, agents, y, m);
      AgentsOfPrefix(front, m);
    }
  }

  lemma {:induction false} WellPlacedFront<A, I>(o: Options<A, I>, agents: seq<A>, x: seq<MergeEntry<A, I>>)
    requires WellPlaced(o, agents, x) && x != []
    ensures WellPlaced(o, agents, x[..|x| - 1])
  {
    var front := x[..|x| - 1];
    forall m | 0 <= m < |front| ensures PlacedAt(o, agents, front, m) {
      assert PlacedAt(o, agents, x, m);
      assert front[..m] == x[..m];
    }
  }

  lemma {:induction false} SameProjectionsSameMerge<A, I>(o: Options<A, I>, agents: seq<A>, x: seq<MergeEntry<A, I>>,
      y: seq<MergeEntry<A, I>>)
    requires AgentsOf(x) == AgentsOf(y) && InfraOf(x) == InfraOf(y)
    requires WellPlaced(o, agents, x) && WellPlaced(o, agents, y)
    ensures x == y
    decreases |x| + |y|
  {
    if x != [] && y != [] {
      if x[|x| - 1].Agent? && y[|y| - 1].Infra? {
        LastInfraIsLate(o, agents, y, x);
      } else if x[|x| - 1].Infra? && y[|y| - 1].Agent? {
        LastInfraIsLate(o, agents, x, y);
      } else {
        WellPlacedFront(o, agents, x);
        WellPlacedFront(o, agents, y);
        SplitLast(x);
        SplitLast(y);
        SameProjectionsSameMerge(o, agents, x[..|x| - 1], y[..|y| - 1]);
      }
    }
  }

  /** Nothing else is a merge: the three facts determine the result. */
  lemma {:induction false} MergeIsUnique<A, I>(o: Options<A, I>, agents: seq<A>, infra: seq<I>,
      x: seq<MergeEntry<A, I>>, y: seq<MergeEntry<A, I>>)
    requires IsMerge(o, agents, infra, x) && IsMerge(o, agents, infra, y)
    ensures x == y
  {
    BelongingIsPlaced(o, agents, x);
    BelongingIsPlaced(o, agents, y);
    SameProjectionsSameMerge(o, agents, x, y);
  }
}
