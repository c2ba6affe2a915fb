/** The replay timeline said in the fields of events and rows (replay/replay-timeline.tsx and
    replay/replay-order.ts): where a row stands, what a card holds, and what makes up a turn. */
module TimelineByEvents {
  import opened Prelude
  import opened Sorting
  import opened ReplayOrder
  import opened ReplayTimeline
  import opened SpansByName

  // ---------- Rows among the cards ----------

  /** A card whose first event the server had received before `t`. */
  predicate HadBy(atom: Atom, t: int) {
    atom.Agent? && atom.agent.events != [] &&
    atom.agent.events[0].receivedAt.At? && atom.agent.events[0].receivedAt.ms < t
  }

  /** Position `j` holds the last card before position `m`. */
  ghost predicate CardBefore(atoms: seq<Atom>, j: int, m: int) {
    0 <= j < m <= |atoms| && atoms[j].Agent? && forall k :: j < k < m ==> atoms[k].Infra?
  }

  /** A row with a readable time follows every card received before it, and right after such a card if
      after any; a row without one follows all cards. */
  ghost predicate StandsAt(atoms: seq<Atom>, m: nat)
    requires m < |atoms| && atoms[m].Infra?
  {
    match atoms[m].infra.ts
    case At(t) =>
      && (forall j :: m < j < |atoms| ==> !HadBy(atoms[j], t))
      && (forall j :: CardBefore(atoms, j, m) ==> HadBy(atoms[j], t))
    case _ => forall j :: m < j < |atoms| ==> atoms[j].Infra?
  }

  /** Rows by time, those without a readable one last, and then by number. */
  predicate RowBefore(a: Row, b: Row) {
    match (a.ts, b.ts)
    case (At(t), At(u)) => t < u || (t == u && a.seqNo <= b.seqNo)
    case (At(_), _) => true
    case (_, At(_)) => false
    case _ => a.seqNo <= b.seqNo
  }

  lemma {:induction false} AgentAt(atoms: seq<Atom>, j: nat)
    requires j < |atoms| && atoms[j].Agent?
    ensures |AgentsOf(atoms[..j])| < |AgentsOf(atoms)|
    ensures AgentsOf(atoms)[|AgentsOf(atoms[..j])|] == atoms[j].agent
  {
    assert atoms[..j + 1][..j] == atoms[..j];
    assert atoms == atoms[..j + 1] + atoms[j + 1..];
    ProjectionsAppend(atoms[..j + 1], atoms[j + 1..]);
  }

  lemma {:induction false} InfraIsAt(atoms: seq<Atom>, j: nat)
    requires j < |atoms| && atoms[j].Infra?
    ensures |InfraOf(atoms[..j])| < |InfraOf(atoms[..j + 1])| <= |InfraOf(atoms)|
    ensures InfraOf(atoms)[|InfraOf(atoms[..j])|] == atoms[j].infra
  {
    assert atoms[..j + 1][..j] == atoms[..j];
    assert atoms == atoms[..j + 1] + atoms[j + 1..];
    ProjectionsAppend(atoms[..j + 1], atoms[j + 1..]);
  }

  lemma {:induction false} CountsGrow(atoms: seq<Atom>, i: nat, j: nat)
    requires i <= j <= |atoms|
    ensures |AgentsOf(atoms[..i])| <= |AgentsOf(atoms[..j])| && |InfraOf(atoms[..i])| <= |InfraOf(atoms[..j])|
    ensures (forall k :: i <= k < j ==> atoms[k].Infra?) ==> |AgentsOf(atoms[..i])| == |AgentsOf(atoms[..j])|
  {
    if i < j {
      CountsGrow(atoms, i, j - 1);
      assert atoms[..j][..j - 1] == atoms[..j - 1];
    }
  }

  lemma {:induction false} LaterCard(atoms: seq<Atom>, m: nat, j: nat)
    requires m <= j < |atoms| && atoms[j].Agent?
    ensures |AgentsOf(atoms[..m])| <= |AgentsOf(atoms[..j])| < |AgentsOf(atoms)|
    ensures AgentsOf(atoms)[|AgentsOf(atoms[..j])|] == atoms[j].agent
  {
    CountsGrow(atoms, m, j);
    AgentAt(atoms, j);
  }

  lemma {:induction false} NearestCard(atoms: seq<Atom>, j: nat, m: nat)
    requires CardBefore(atoms, j, m)
    ensures |AgentsOf(atoms[..m])| == |AgentsOf(atoms[..j])| + 1 <= |AgentsOf(atoms)|
    ensures AgentsOf(atoms)[|AgentsOf(atoms[..m])| - 1] == atoms[j].agent
  {
    CountsGrow(atoms, j + 1, m);
    assert atoms[..j + 1][..j] == atoms[..j];
    AgentAt(atoms, j);
  }

  /** The cards after position `m` come from `p` on, and the last before it is the one before `p`. */
  lemma {:induction false} CardsAround(agents: seq<Card>, atoms: seq<Atom>, m: nat, p: nat)
    requires m < |atoms| && AgentsOf(atoms) == agents && p == |AgentsOf(atoms[..m])|
    ensures forall j :: m < j < |atoms| && atoms[j].Agent? ==>
      exists a :: p <= a < |agents| && agents[a] == atoms[j].agent
    ensures forall j :: CardBefore(atoms, j, m) ==> 0 < p <= |agents| && agents[p - 1] == atoms[j].agent
  {
    forall j | m < j < |atoms| && atoms[j].Agent?
      ensures exists a :: p <= a < |agents| && agents[a] == atoms[j].agent
    {
      LaterCard(atoms, m, j);
    }
    forall j | CardBefore(atoms, j, m) ensures 0 < p <= |agents| && agents[p - 1] == atoms[j].agent {
      NearestCard(atoms, j, m);
    }
  }

  lemma {:induction false} HadIs(o: Options<Card, Row>, atom: Atom, t: int)
    requires o == TimelineOptions()
    ensures HadBy(atom, t) <==> atom.Agent? && ReceivedBefore(o, atom.agent, t)
  {
  }

  lemma {:induction false} StandsOn(o: Options<Card, Row>, agents: seq<Card>, atoms: seq<Atom>, m: nat)
    requires o == TimelineOptions() && m < |atoms| && atoms[m].Infra?
    requires AgentsOf(atoms) == agents && BelongsAt(o, agents, atoms[m].infra, |AgentsOf(atoms[..m])|)
    ensures StandsAt(atoms, m)
  {
    CardsAround(agents, atoms, m, |AgentsOf(atoms[..m])|);
    forall atom, t ensures HadBy(atom, t) <==> atom.Agent? && ReceivedBefore(o, atom.agent, t) {
      HadIs(o, atom, t);
    }
  }

  /** Every row of the timeline stands where the receipts of the cards put it. */
  lemma {:induction false} RowStands(cmp: (string, string) -> int, visible: seq<AgentEvent>, rows: seq<Row>, m: nat)
    requires m < |Atomic(cmp, visible, rows)| && Atomic(cmp, visible, rows)[m].Infra?
    ensures StandsAt(Atomic(cmp, visible, rows), m)
  {
    var o, agents := TimelineOptions(), Sort(CardLe(cmp), Cards(visible, visible));
    var atoms := Atomic(cmp, visible, rows);
    MergeIsInterleaving(o, agents, rows);
    assert BelongsWhereItIs(o, agents, atoms, m);
    StandsOn(o, agents, atoms, m);
  }

  lemma {:induction false} RowBeforeIs(a: Row, b: Row)
    ensures InfraLe(TimelineOptions())(a, b) <==> RowBefore(a, b)
  {
  }

  lemma {:induction false} SortedRows(items: seq<Row>)
    requires Sorted(InfraLe(TimelineOptions()), items)
    ensures forall i, j :: 0 <= i < j < |items| ==> RowBefore(items[i], items[j])
  {
    forall i, j | 0 <= i < j < |items| ensures RowBefore(items[i], items[j]) {
      RowBeforeIs(items[i], items[j]);
    }
  }

  /** The rows come in order, and they are the rows given. */
  lemma {:induction false} RowsInOrder(cmp: (string, string) -> int, visible: seq<AgentEvent>, rows: seq<Row>)
    ensures var atoms := Atomic(cmp, visible, rows);
      && multiset(InfraOf(atoms)) == multiset(rows)
      && forall i, j :: 0 <= i < j < |atoms| && atoms[i].Infra? && atoms[j].Infra? ==>
        RowBefore(atoms[i].infra, atoms[j].infra)
  {
    var o, agents := TimelineOptions(), Sort(CardLe(cmp), Cards(visible, visible));
    var atoms := Atomic(cmp, visible, rows);
    MergeIsInterleaving(o, agents, rows);
    InfraOrderIsTotal(o);
    SortIsSorted(InfraLe(o), rows);
    SortedRows(InfraOf(atoms));
    forall i, j | 0 <= i < j < |atoms| && atoms[i].Infra? && atoms[j].Infra?
      ensures RowBefore(atoms[i].infra, atoms[j].infra)
    {
      InfraIsAt(atoms, i);
      InfraIsAt(atoms, j);
      CountsGrow(atoms, i + 1, j);
    }
  }

  // ---------- Cards ----------

  /** An output of the span `base` at position `k`. */
  predicate OutputAt(visible: seq<AgentEvent>, base: string, k: int) {
    0 <= k < |visible| && visible[k].kind.TerminalOutput? && IsBaseOf(base, visible[k].id)
  }

  predicate CommandAt(visible: seq<AgentEvent>, base: string, k: int) {
    0 <= k < |visible| && visible[k].kind.TerminalCommand? && IsBaseOf(base, visible[k].id)
  }

  /** `e` is the output of a command that is visible too, and so has no card of its own. */
  ghost predicate ShownWithCommand(visible: seq<AgentEvent>, e: AgentEvent) {
    e.kind.TerminalOutput? && exists base, k :: IsBaseOf(base, e.id) && CommandAt(visible, base, k)
  }

  lemma {:induction false} PairedIs(visible: seq<AgentEvent>, e: AgentEvent)
    ensures IsPaired(visible, e) <==> ShownWithCommand(visible, e)
  {
    var own := IdBase(e.id);
    BaseIs(e.id, own);
    if IsPaired(visible, e) {
      var c :| c in visible && c.kind.TerminalCommand? && IdBase(c.id) == own;
      var k :| 0 <= k < |visible| && visible[k] == c;
      BaseIs(c.id, own);
      assert CommandAt(visible, own, k);
    }
    if ShownWithCommand(visible, e) {
      var base, k :| IsBaseOf(base, e.id) && CommandAt(visible, base, k);
      BaseIs(e.id, base);
      BaseIs(visible[k].id, base);
      assert visible[k] in visible;
    }
  }

  /** Position `k` holds the last output of the span. */
  ghost predicate LastOutputAt(visible: seq<AgentEvent>, base: string, k: int) {
    OutputAt(visible, base, k) && forall j :: k < j ==> !OutputAt(visible, base, j)
  }

  lemma {:induction false} OutputIs(visible: seq<AgentEvent>, base: string, i: nat)
    requires i < |visible|
    ensures IsOutputOf(visible[i], base) <==> OutputAt(visible, base, i)
  {
    BaseIs(visible[i].id, base);
  }

  lemma {:induction false} NoOutputIs(visible: seq<AgentEvent>, base: string)
    requires LastOutput(visible, base).None?
    ensures forall k :: !OutputAt(visible, base, k)
  {
    LastOutputIsOutput(visible, base);
    forall k | 0 <= k < |visible| ensures !OutputAt(visible, base, k) {
      OutputIs(visible, base, k);
      assert visible[k] in visible;
    }
  }

  lemma {:induction false} FrontOutputs(visible: seq<AgentEvent>, base: string)
    requires visible != []
    ensures var n := |visible| - 1;
      forall k :: OutputAt(visible, base, k) <==>
        OutputAt(visible[..n], base, k) || (k == n && OutputAt(visible, base, n))
  {
  }

  lemma {:induction false} LastOutputIs(visible: seq<AgentEvent>, base: string) returns (k: nat)
    requires LastOutput(visible, base).Some?
    ensures k < |visible| && LastOutputAt(visible, base, k) && LastOutput(visible, base) == Some(visible[k])
  {
    var n := |visible| - 1;
    OutputIs(visible, base, n);
    if IsOutputOf(visible[n], base) {
      k := n;
    } else {
      k := LastOutputIs(visible[..n], base);
      FrontOutputs(visible, base);
    }
  }

  /** The events on the card of `e`: itself and, for a command with output, its last output. */
  ghost predicate HoldsEvents(visible: seq<AgentEvent>, e: AgentEvent, events: seq<AgentEvent>) {
    if e.kind.TerminalCommand? && exists base, k :: IsBaseOf(base, e.id) && OutputAt(visible, base, k) then
      exists base, k :: IsBaseOf(base, e.id) && LastOutputAt(visible, base, k) && events == [e, visible[k]]
    else events == [e]
  }

  lemma {:induction false} MembersAre(visible: seq<AgentEvent>, e: AgentEvent)
    ensures HoldsEvents(visible, e, Members(visible, e))
  {
    var own := IdBase(e.id);
    BaseIs(e.id, own);
    if LastOutput(visible, own).Some? {
      var k := LastOutputIs(visible, own);
      assert OutputAt(visible, own, k) && LastOutputAt(visible, own, k);
    } else {
      NoOutputIs(visible, own);
      forall base | IsBaseOf(base, e.id) ensures base == own {
        BaseIs(e.id, base);
      }
    }
  }

  /** When the card was received: by the receipt of the event, or else its own time. */
  predicate ReceivedIs(e: AgentEvent, m: Moment) {
    match (e.receivedAt, e.ts)
    case (At(r), _) => m == Moment(r)
    case (_, At(t)) => m == Moment(t)
    case _ => m == Earliest
  }

  /** The group of an event is the one it names, or its span. */
  predicate GroupIs(e: AgentEvent, group: string) {
    match e.groupId
    case Some(g) => group == g
    case None => IsBaseOf(group, e.id)
  }

  /** The card says what the event says. */
  ghost predicate IsCardFor(visible: seq<AgentEvent>, e: AgentEvent, card: Card) {
    && HoldsEvents(visible, e, card.events)
    && card.key == e.id
    && GroupIs(e, card.groupKey)
    && ReceivedIs(e, card.receivedTs)
    && card.producerTs == (match e.ts case At(t) => Moment(t) case _ => Earliest)
    && card.signal == (match e.signal case Some(s) => s case None => "trace")
    && card.rawSeq == e.rawSeq
  }

  lemma {:induction false} CardIs(visible: seq<AgentEvent>, e: AgentEvent)
    ensures IsCardFor(visible, e, CardOf(visible, e)) && CardOf(visible, e).events[0] == e
  {
    MembersAre(visible, e);
    BaseIs(e.id, IdBase(e.id));
  }

  /** How many cards open with `e`. */
  function Opening(cards: seq<Card>, e: AgentEvent): nat {
    |Filter(cards, (c: Card) => c.events != [] && c.events[0] == e)|
  }

  lemma {:induction false} OpeningAdd(cards: seq<Card>, card: Card, e: AgentEvent)
    requires card.events != []
    ensures Opening(cards + [card], e) == Opening(cards, e) + if card.events[0] == e then 1 else 0
  {
    var opens := (c: Card) => c.events != [] && c.events[0] == e;
    FilterAppend(cards, [card], opens);
    FilterCons(card, [], opens);
    assert [card] == [card] + [];
  }

  lemma {:induction false} CardsOpen(visible: seq<AgentEvent>, some: seq<AgentEvent>, e: AgentEvent)
    ensures Opening(Cards(visible, some), e) == if ShownWithCommand(visible, e) then 0 else multiset(some)[e]
    ensures forall c :: c in Cards(visible, some) ==> exists f :: f in some && c == CardOf(visible, f)
  {
    if some != [] {
      var front, last := some[..|some| - 1], some[|some| - 1];
      CardsOpen(visible, front, e);
      CountLast(some, e);
      PairedIs(visible, last);
      CardIs(visible, last);
      OpeningAdd(Cards(visible, front), CardOf(visible, last), e);
      assert forall f :: f in front ==> f in some;
      assert last in some;
    }
  }

  lemma {:induction false} OpeningSort(le: (Card, Card) -> bool, cards: seq<Card>, e: AgentEvent)
    ensures Opening(Sort(le, cards), e) == Opening(cards, e)
  {
    SortCount(le, cards, (c: Card) => c.events != [] && c.events[0] == e);
  }

  lemma {:induction false} AgentsHold(atoms: seq<Atom>, card: Card)
    ensures card in AgentsOf(atoms) <==> exists m :: 0 <= m < |atoms| && atoms[m] == Agent(card)
  {
    if atoms != [] {
      var n := |atoms| - 1;
      AgentsHold(atoms[..n], card);
      assert atoms[..n] + [atoms[n]] == atoms;
    }
  }

  /** Each card of the timeline is that of a visible event, and an event has as many cards of its own as
      it occurs, unless it is shown with its command. */
  lemma {:induction false} CardsStand(cmp: (string, string) -> int, visible: seq<AgentEvent>, rows: seq<Row>,
      e: AgentEvent)
    ensures var atoms := Atomic(cmp, visible, rows);
      && Opening(AgentsOf(atoms), e) == (if ShownWithCommand(visible, e) then 0 else multiset(visible)[e])
      && forall m :: 0 <= m < |atoms| && atoms[m].Agent? ==>
        exists f :: f in visible && IsCardFor(visible, f, atoms[m].agent)
  {
    var o, cards := TimelineOptions(), Cards(visible, visible);
    var atoms := Atomic(cmp, visible, rows);
    MergeIsInterleaving(o, Sort(CardLe(cmp), cards), rows);
    OpeningSort(CardLe(cmp), cards, e);
    CardsOpen(visible, visible, e);
    SortMembers(CardLe(cmp), cards);
    forall m | 0 <= m < |atoms| && atoms[m].Agent?
      ensures exists f :: f in visible && IsCardFor(visible, f, atoms[m].agent)
    {
      AgentsHold(atoms, atoms[m].agent);
      var f :| f in visible && atoms[m].agent == CardOf(visible, f);
      CardIs(visible, f);
    }
  }

  ghost predicate TieBefore(cmp: (string, string) -> int, a: Card, b: Card) {
    || cmp(a.signal, b.signal) < 0
    || (cmp(a.signal, b.signal) == 0 && a.rawSeq < b.rawSeq)
    || (cmp(a.signal, b.signal) == 0 && a.rawSeq == b.rawSeq && cmp(a.key, b.key) <= 0)
  }

  /** What comes first decides: a readable time after none, the earlier time, the signal, the position in
      its stream, the id. */
  ghost predicate ShownBefore(cmp: (string, string) -> int, a: Card, b: Card) {
    match (a.producerTs, b.producerTs)
    case (Moment(t), Moment(u)) => t < u || (t == u && TieBefore(cmp, a, b))
    case (Earliest, Earliest) => TieBefore(cmp, a, b)
    case (Latest, Latest) => TieBefore(cmp, a, b)
    case (Earliest, _) => true
    case (_, Latest) => true
    case _ => false
  }

  lemma {:induction false} ShownBeforeIs(cmp: (string, string) -> int, a: Card, b: Card)
    ensures CardLe(cmp)(a, b) <==> ShownBefore(cmp, a, b)
  {
  }

  lemma {:induction false} CardsOfTwo(atoms: seq<Atom>, i: nat, j: nat)
    requires i < j < |atoms| && atoms[i].Agent? && atoms[j].Agent?
    ensures exists a, b ::
      && 0 <= a < b < |AgentsOf(atoms)|
      && AgentsOf(atoms)[a] == atoms[i].agent
      && AgentsOf(atoms)[b] == atoms[j].agent
  {
    AgentAt(atoms, i);
    LaterCard(atoms, i + 1, j);
    assert atoms[..i + 1][..i] == atoms[..i];
  }

  /** The cards come in that order. */
  lemma {:induction false} CardsInTurn(cmp: (string, string) -> int, visible: seq<AgentEvent>, rows: seq<Row>,
      i: nat, j: nat)
    requires Collates(cmp) && i < j < |Atomic(cmp, visible, rows)|
    requires Atomic(cmp, visible, rows)[i].Agent? && Atomic(cmp, visible, rows)[j].Agent?
    ensures ShownBefore(cmp, Atomic(cmp, visible, rows)[i].agent, Atomic(cmp, visible, rows)[j].agent)
  {
    var cards := Cards(visible, visible);
    var atoms := Atomic(cmp, visible, rows);
    MergeIsInterleaving(TimelineOptions(), Sort(CardLe(cmp), cards), rows);
    CardOrderIsTotal(cmp);
    SortIsSorted(CardLe(cmp), cards);
    CardsOfTwo(atoms, i, j);
    ShownBeforeIs(cmp, atoms[i].agent, atoms[j].agent);
  }

  // ---------- Entries ----------

  function CardEvents(cards: seq<Card>): seq<seq<AgentEvent>> {
    Map(cards, (c: Card) => c.events)
  }

  lemma {:induction false} EventsAre(cards: seq<Card>)
    ensures EventsOf(cards) == Concat(CardEvents(cards))
  {
    if cards != [] {
      var front, last := cards[..|cards| - 1], cards[|cards| - 1];
      EventsAre(front);
      assert CardEvents(cards) == CardEvents(front) + [last.events];
      ConcatAppend(CardEvents(front), [last.events]);
    }
  }

  /** An entry shows one row, or the events of cards of one group under the id of the first. */
  ghost predicate Shows(entry: Entry, segment: Segment) {
    match segment
    case RowOf(row) => entry == InfraEntry(match row.ts case At(t) => Moment(t) case _ => Latest, row)
    case CardsOf(cards) =>
      && cards != []
      && (forall c :: 0 <= c < |cards| ==> cards[c].groupKey == cards[0].groupKey)
      && entry == TurnEntry(cards[0].receivedTs, Turn(cards[0].key, Concat(CardEvents(cards))))
  }

  /** Cards side by side in two entries are of different groups. */
  ghost predicate Parts(a: Segment, b: Segment) {
    a.CardsOf? && b.CardsOf? && a.cards != [] && b.cards != [] ==>
      a.cards[|a.cards| - 1].groupKey != b.cards[0].groupKey
  }

  lemma {:induction false} ShowsOne(segment: Segment)
    requires OneGroup(segment)
    ensures Shows(Render(segment), segment)
  {
    if segment.CardsOf? { EventsAre(segment.cards); }
  }

  lemma {:induction false} PartsIs(a: Segment, b: Segment)
    requires OneGroup(a) && !SameGroup(a, b)
    ensures Parts(a, b)
  {
    if a.CardsOf? { assert a.cards[|a.cards| - 1] in a.cards; }
  }

  lemma {:induction false} MaximalAt(segments: seq<Segment>, i: nat)
    requires Maximal(segments) && i < |segments|
    ensures OneGroup(segments[i])
    ensures i + 1 < |segments| ==> !SameGroup(segments[i], segments[i + 1])
  {
    if i + 1 < |segments| { MaximalAt(segments[..|segments| - 1], i); }
  }

  function AtomsIn(segment: Segment): (r: seq<Atom>) {
    match segment
    case RowOf(row) => [Infra(row)]
    case CardsOf(cards) => Map(cards, (c: Card) => Agent(c))
  }

  lemma {:induction false} AtomsAre(segment: Segment)
    ensures AtomsOf(segment) == AtomsIn(segment)
  {
  }

  lemma {:induction false} FlattenOn(segments: seq<Segment>, front: seq<Segment>, last: Segment)
    requires segments == front + [last]
    ensures Concat(Map(segments, AtomsIn)) == Concat(Map(front, AtomsIn)) + AtomsIn(last)
  {
    assert Map(segments, AtomsIn) == Map(front, AtomsIn) + [AtomsIn(last)];
    ConcatAppend(Map(front, AtomsIn), [AtomsIn(last)]);
    assert Concat([AtomsIn(last)]) == AtomsIn(last);
  }

  lemma {:induction false} FlattenIs(segments: seq<Segment>)
    ensures Flatten(segments) == Concat(Map(segments, AtomsIn))
  {
    if segments != [] {
      var front, last := segments[..|segments| - 1], segments[|segments| - 1];
      FlattenIs(front);
      AtomsAre(last);
      FlattenOn(segments, front, last);
    }
  }

  /** The entries cut the cards and rows into stretches, in order: each row by itself, and the cards
      between rows wherever the group changes, and nowhere else. */
  lemma {:induction false} EntriesCut(atoms: seq<Atom>)
    ensures var segments, entries := Segments(atoms), Rendered(Segments(atoms));
      && |entries| == |segments|
      && Concat(Map(segments, AtomsIn)) == atoms
      && (forall i :: 0 <= i < |segments| ==> Shows(entries[i], segments[i]))
      && (forall i :: 0 <= i < |segments| - 1 ==> Parts(segments[i], segments[i + 1]))
  {
    var segments := Segments(atoms);
    GroupingIsExact(atoms);
    FlattenIs(segments);
    forall i | 0 <= i < |segments| ensures Shows(Rendered(segments)[i], segments[i]) {
      MaximalAt(segments, i);
      ShowsOne(segments[i]);
    }
    forall i | 0 <= i < |segments| - 1 ensures Parts(segments[i], segments[i + 1]) {
      MaximalAt(segments, i);
      PartsIs(segments[i], segments[i + 1]);
    }
  }

  // ---------- Commands and outputs ----------

  lemma {:induction false} LastOutputGiven(visible: seq<AgentEvent>, base: string, k: nat)
    requires LastOutputAt(visible, base, k)
    ensures LastOutput(visible, base) == Some(visible[k])
  {
    OutputIs(visible, base, k);
    LastOutputIsOutput(visible, base);
    var m := LastOutputIs(visible, base);
    assert m == k;
  }

  /** A command `base:x` and the last output `base:y` stand side by side in one turn. */
  lemma {:induction false} CommandAndOutput(cmp: (string, string) -> int, visible: seq<AgentEvent>, rows: seq<Row>,
      base: string, c: nat, o: nat) returns (i: nat, k: nat)
    requires CommandAt(visible, base, c) && LastOutputAt(visible, base, o)
    ensures var entries := Rendered(Segments(Atomic(cmp, visible, rows)));
      && i < |entries| && entries[i].TurnEntry?
      && k + 1 < |entries[i].turn.events|
      && entries[i].turn.events[k] == visible[c]
      && entries[i].turn.events[k + 1] == visible[o]
  {
    LastOutputGiven(visible, base, o);
    BaseIs(visible[c].id, base);
    assert visible[c] in visible;
    i, k := CommandThenOutput(cmp, visible, rows, visible[c]);
  }
}
