/** What the replay timeline shows (replay/replay-timeline.tsx): atomic cards, merged with infra rows
    and grouped into visual turns. */
module ReplayTimeline {
  import opened Prelude
  import opened Sorting
  import opened ReplayOrder
  import InfraRows

  /** A time with the two fallbacks of the source: before everything and after everything. */
  datatype Moment = Earliest | Moment(ms: int) | Latest

  datatype Row = Row(id: string, ts: Stamp, seqNo: int)

  datatype Card = Card(
    key: string, groupKey: string, events: seq<AgentEvent>,
    receivedTs: Moment, producerTs: Moment, signal: string, rawSeq: int)

  function FiniteOr(s: Stamp, fallback: Moment): Moment {
    if s.At? then Moment(s.ms) else fallback
  }

  function IdBase(id: string): string {
    InfraRows.SpanBase(id)
  }

  // ---------- Cards ----------

  predicate IsCommandOf(e: AgentEvent, base: string) {
    e.kind.TerminalCommand? && IdBase(e.id) == base
  }

  predicate IsOutputOf(e: AgentEvent, base: string) {
    e.kind.TerminalOutput? && IdBase(e.id) == base
  }

  /** The last output with this base. */
  function LastOutput(events: seq<AgentEvent>, base: string): Option<AgentEvent> {
    if events == [] then None
    else if IsOutputOf(events[|events| - 1], base) then Some(events[|events| - 1])
    else LastOutput(events[..|events| - 1], base)
  }

  function CommandBases(events: seq<AgentEvent>): set<string> {
    set e | e in events && e.kind.TerminalCommand? :: IdBase(e.id)
  }

  /** The output of some command, which is shown on that command's card. */
  predicate IsPaired(all: seq<AgentEvent>, e: AgentEvent) {
    e.kind.TerminalOutput? && IdBase(e.id) in CommandBases(all)
  }

  function Members(all: seq<AgentEvent>, e: AgentEvent): seq<AgentEvent> {
    var output := LastOutput(all, IdBase(e.id));
    if e.kind.TerminalCommand? && output.Some? then [e, output.value] else [e]
  }

  function CardOf(all: seq<AgentEvent>, e: AgentEvent): Card {
    var producerTs := FiniteOr(e.ts, Earliest);
    Card(e.id, e.groupId.GetOr(IdBase(e.id)), Members(all, e),
         FiniteOr(e.receivedAt, producerTs), producerTs, e.signal.GetOr("trace"), e.rawSeq)
  }

  /** The cards of `some` of the events, in order. */
  function Cards(all: seq<AgentEvent>, some: seq<AgentEvent>): seq<Card> {
    if some == [] then []
    else
      var before := Cards(all, some[..|some| - 1]);
      if IsPaired(all, some[|some| - 1]) then before else before + [CardOf(all, some[|some| - 1])]
  }

  /** What the first loop knows of the events: the last output of each base, and the bases of commands. */
  ghost predicate Collected(events: seq<AgentEvent>, outputByBase: map<string, AgentEvent>, commandBases: set<string>) {
    && (forall base :: LastOutput(events, base) == if base in outputByBase then Some(outputByBase[base]) else None)
    && commandBases == CommandBases(events)
  }

  lemma {:induction false} CollectOne(events: seq<AgentEvent>, i: nat, outputByBase: map<string, AgentEvent>,
      commandBases: set<string>)
    requires i < |events| && Collected(events[..i], outputByBase, commandBases)
    ensures var e := events[i]; Collected(events[..i + 1],
      if e.kind.TerminalOutput? then outputByBase[IdBase(e.id) := e] else outputByBase,
      if e.kind.TerminalCommand? then commandBases + {IdBase(e.id)} else commandBases)
  {
    assert events[..i + 1] == events[..i] + [events[i]];
    assert events[..i + 1][..i] == events[..i];
  }

  lemma {:induction false} CardsOneMore(events: seq<AgentEvent>, i: nat)
    requires i < |events|
    ensures Cards(events, events[..i + 1]) == Cards(events, events[..i])
      + if IsPaired(events, events[i]) then [] else [CardOf(events, events[i])]
  {
    assert events[..i + 1][..i] == events[..i];
  }

  method AgentCards(events: seq<AgentEvent>) returns (cards: seq<Card>)
    ensures cards == Cards(events, events)
  {
    var outputByBase: map<string, AgentEvent> := map[];
    var commandBases: set<string> := {};
    for i := 0 to |events|
      invariant Collected(events[..i], outputByBase, commandBases)
    {
      var event := events[i];
      CollectOne(events, i, outputByBase, commandBases);
      if event.kind.TerminalOutput? { outputByBase := outputByBase[IdBase(event.id) := event]; }
      if event.kind.TerminalCommand? { commandBases := commandBases + {IdBase(event.id)}; }
    }
    assert events[..|events|] == events;
    cards := [];
    for i := 0 to |events|
      invariant cards == Cards(events, events[..i])
    {
      var event := events[i];
      CardsOneMore(events, i);
      if event.kind.TerminalOutput? && IdBase(event.id) in commandBases { continue; }
      var paired := event.kind.TerminalCommand? && IdBase(event.id) in outputByBase;
      var members := if paired then [event, outputByBase[IdBase(event.id)]] else [event];
      var producerTs := FiniteOr(event.ts, Earliest);
      cards := cards + [Card(event.id, event.groupId.GetOr(IdBase(event.id)), members,
                             FiniteOr(event.receivedAt, producerTs), producerTs,
                             event.signal.GetOr("trace"), event.rawSeq)];
    }
    assert events[..|events|] == events;
  }

  /** Cards by producer time, unreadable times first. */
  function CompareCards(cmp: (string, string) -> int, a: Card, b: Card): int {
    if a.producerTs != b.producerTs then
      (if a.producerTs.Earliest? || b.producerTs.Latest? then -1
       else if b.producerTs.Earliest? || a.producerTs.Latest? then 1
       else a.producerTs.ms - b.producerTs.ms)
    else
      var signal := cmp(a.signal, b.signal);
      if signal != 0 then signal
      else if a.rawSeq != b.rawSeq then a.rawSeq - b.rawSeq
      else cmp(a.key, b.key)
  }

  function CardLe(cmp: (string, string) -> int): (Card, Card) -> bool {
    (a, b) => CompareCards(cmp, a, b) <= 0
  }

  // ---------- Turns ----------

  datatype Turn = Turn(key: string, events: seq<AgentEvent>)
  datatype Entry = TurnEntry(ts: Moment, turn: Turn) | InfraEntry(ts: Moment, row: Row)

  /** A stretch of the merged list: an infra row, or cards shown as one turn. */
  datatype Segment = RowOf(row: Row) | CardsOf(cards: seq<Card>)

  type Atom = MergeEntry<Card, Row>

  /** The segment is a turn whose last card has this group. */
  predicate Continues(segment: Segment, groupKey: string) {
    segment.CardsOf? && segment.cards != [] && segment.cards[|segment.cards| - 1].groupKey == groupKey
  }

  function AddCard(segments: seq<Segment>, card: Card): seq<Segment> {
    if segments != [] && Continues(segments[|segments| - 1], card.groupKey) then
      segments[..|segments| - 1] + [CardsOf(segments[|segments| - 1].cards + [card])]
    else segments + [CardsOf([card])]
  }

  function AddAtom(before: seq<Segment>, atom: Atom): seq<Segment> {
    match atom
    case Infra(row) => before + [RowOf(row)]
    case Agent(card) => AddCard(before, card)
  }

  function Segments(atomic: seq<Atom>): seq<Segment> {
    if atomic == [] then [] else AddAtom(Segments(atomic[..|atomic| - 1]), atomic[|atomic| - 1])
  }

  function EventsOf(cards: seq<Card>): seq<AgentEvent> {
    if cards == [] then [] else EventsOf(cards[..|cards| - 1]) + cards[|cards| - 1].events
  }

  function Render(segment: Segment): Entry {
    match segment
    case RowOf(row) => InfraEntry(FiniteOr(row.ts, Latest), row)
    case CardsOf(cards) =>
      if cards == [] then TurnEntry(Earliest, Turn("", []))
      else TurnEntry(cards[0].receivedTs, Turn(cards[0].key, EventsOf(cards)))
  }

  function Rendered(segments: seq<Segment>): (r: seq<Entry>)
    ensures |r| == |segments| && forall i :: 0 <= i < |r| ==> r[i] == Render(segments[i])
  {
    seq(|segments|, i requires 0 <= i < |segments| => Render(segments[i]))
  }

  function TimelineOptions(): Options<Card, Row> {
    Options(
      (card: Card) => if card.events == [] then Absent else card.events[0].receivedAt,
      (row: Row) => row.ts,
      (row: Row) => row.seqNo)
  }

  /** Cards in producer order, with the infra rows merged in. */
  function Atomic(cmp: (string, string) -> int, visible: seq<AgentEvent>, rows: seq<Row>): seq<Atom> {
    Merged(TimelineOptions(), Sort(CardLe(cmp), Cards(visible, visible)), rows)
  }

  /** `previousGroup` is the group of the last card, if a turn comes last. */
  ghost predicate EndsWith(segments: seq<Segment>, previousGroup: Option<string>) {
    if segments == [] || segments[|segments| - 1].RowOf? then previousGroup == None
    else previousGroup.Some? && Continues(segments[|segments| - 1], previousGroup.value)
  }

  lemma {:induction false} SegmentsStep(atomic: seq<Atom>, i: nat)
    requires i < |atomic|
    ensures Segments(atomic[..i + 1]) == AddAtom(Segments(atomic[..i]), atomic[i])
  {
    assert atomic[..i + 1][..i] == atomic[..i];
  }

  lemma {:induction false} RenderAddRow(before: seq<Segment>, row: Row)
    ensures Rendered(before + [RowOf(row)]) == Rendered(before) + [InfraEntry(FiniteOr(row.ts, Latest), row)]
  {
  }

  lemma {:induction false} EndsContinue(segments: seq<Segment>, previousGroup: Option<string>, card: Card)
    requires EndsWith(segments, previousGroup)
    ensures segments != [] && Rendered(segments)[|segments| - 1].TurnEntry? && previousGroup == Some(card.groupKey)
      <==> segments != [] && Continues(segments[|segments| - 1], card.groupKey)
    ensures segments != [] && Continues(segments[|segments| - 1], card.groupKey) ==>
      var cards := segments[|segments| - 1].cards + [card];
      && cards[0] == segments[|segments| - 1].cards[0]
      && EventsOf(cards) == EventsOf(segments[|segments| - 1].cards) + card.events
    ensures EventsOf([card]) == card.events
  {
    assert [card][..0] == [];
    if segments != [] && Continues(segments[|segments| - 1], card.groupKey) {
      var cards := segments[|segments| - 1].cards;
      assert (cards + [card])[..|cards|] == cards;
    }
  }

  /** One more card, seen on the rendered list. */
  lemma {:induction false} RenderAddCard(before: seq<Segment>, previousGroup: Option<string>, card: Card)
    requires EndsWith(before, previousGroup)
    ensures EndsWith(AddCard(before, card), Some(card.groupKey))
    ensures var shown := Rendered(before);
      Rendered(AddCard(before, card)) ==
        if shown != [] && shown[|shown| - 1].TurnEntry? && previousGroup == Some(card.groupKey) then
          var previous := shown[|shown| - 1];
          shown[..|shown| - 1] + [previous.(turn := previous.turn.(events := previous.turn.events + card.events))]
        else shown + [TurnEntry(card.receivedTs, Turn(card.key, card.events))]
  {
    EndsContinue(before, previousGroup, card);
    if before != [] && Continues(before[|before| - 1], card.groupKey) {
      var cards := before[|before| - 1].cards + [card];
      var front := before[..|before| - 1];
      assert Rendered(AddCard(before, card)) == Rendered(front) + [Render(CardsOf(cards))];
      assert Rendered(front) == Rendered(before)[..|before| - 1];
    } else {
      assert Rendered(AddCard(before, card)) == Rendered(before) + [Render(CardsOf([card]))];
    }
  }

  /** Extend the last turn, or start a new one. */
  method PushCard(shown: seq<Entry>, previousGroup: Option<string>, card: Card, ghost segments: seq<Segment>)
    returns (merged: seq<Entry>)
    requires shown == Rendered(segments) && EndsWith(segments, previousGroup)
    ensures merged == Rendered(AddCard(segments, card))
    ensures EndsWith(AddCard(segments, card), Some(card.groupKey))
  {
    RenderAddCard(segments, previousGroup, card);
    if shown != [] && shown[|shown| - 1].TurnEntry? && previousGroup == Some(card.groupKey) {
      var previous := shown[|shown| - 1];
      merged := shown[..|shown| - 1] +
        [previous.(turn := previous.turn.(events := previous.turn.events + card.events))];
    } else {
      merged := shown + [TurnEntry(card.receivedTs, Turn(card.key, card.events))];
    }
  }

  method GroupTurns(atomic: seq<Atom>) returns (merged: seq<Entry>)
    ensures merged == Rendered(Segments(atomic))
  {
    merged := [];
    var previousGroup: Option<string> := None;
    ghost var segments: seq<Segment> := [];
    for i := 0 to |atomic|
      invariant segments == Segments(atomic[..i])
      invariant merged == Rendered(segments)
      invariant EndsWith(segments, previousGroup)
    {
      SegmentsStep(atomic, i);
      match atomic[i]
      case Infra(row) =>
        RenderAddRow(segments, row);
        merged := merged + [InfraEntry(FiniteOr(row.ts, Latest), row)];
        previousGroup := None;
        segments := segments + [RowOf(row)];
      case Agent(card) =>
        merged := PushCard(merged, previousGroup, card, segments);
        previousGroup := Some(card.groupKey);
        segments := AddCard(segments, card);
    }
    assert atomic[..|atomic|] == atomic;
  }

  method Entries(cmp: (string, string) -> int, visible: seq<AgentEvent>, rows: seq<Row>) returns (merged: seq<Entry>)
    ensures merged == Rendered(Segments(Atomic(cmp, visible, rows)))
  {
    var cards := AgentCards(visible);
    var atomic := MergeAgentAndInfra(Sort(CardLe(cmp), cards), rows, TimelineOptions());
    merged := GroupTurns(atomic);
  }

  // ---------- Grouping ----------

  function AgentAtoms(cards: seq<Card>): (r: seq<Atom>)
    ensures |r| == |cards| && forall i :: 0 <= i < |r| ==> r[i] == Agent(cards[i])
  {
    seq(|cards|, i requires 0 <= i < |cards| => Agent(cards[i]))
  }

  function AtomsOf(segment: Segment): seq<Atom> {
    match segment
    case RowOf(row) => [Infra(row)]
    case CardsOf(cards) => AgentAtoms(cards)
  }

  function Flatten(segments: seq<Segment>): seq<Atom> {
    if segments == [] then [] else Flatten(segments[..|segments| - 1]) + AtomsOf(segments[|segments| - 1])
  }

  /** A turn is not empty and its cards are of one group. */
  ghost predicate OneGroup(segment: Segment) {
    segment.CardsOf? ==>
      && segment.cards != []
      && forall c :: c in segment.cards ==> c.groupKey == segment.cards[0].groupKey
  }

  /** Two turns of one group next to each other. */
  ghost predicate SameGroup(a: Segment, b: Segment) {
    a.CardsOf? && b.CardsOf? && a.cards != [] && b.cards != [] && a.cards[0].groupKey == b.cards[0].groupKey
  }

  /** Every turn is of one group and no two adjacent turns are of the same. */
  ghost predicate Maximal(segments: seq<Segment>) {
    segments == [] ||
    (&& Maximal(segments[..|segments| - 1])
     && OneGroup(segments[|segments| - 1])
     && (|segments| > 1 ==> !SameGroup(segments[|segments| - 2], segments[|segments| - 1])))
  }

  lemma {:induction false} SegmentsSide(front: seq<Atom>, last: Atom)
    ensures Segments(front + [last]) == AddAtom(Segments(front), last)
  {
    assert (front + [last])[..|front|] == front;
  }

  lemma {:induction false} AddSegment(segments: seq<Segment>, s: Segment)
    requires Maximal(segments) && OneGroup(s)
    requires segments != [] ==> !SameGroup(segments[|segments| - 1], s)
    ensures Flatten(segments + [s]) == Flatten(segments) + AtomsOf(s)
    ensures Maximal(segments + [s])
  {
    assert (segments + [s])[..|segments|] == segments;
  }

  lemma {:induction false} LongerTurn(last: Segment, card: Card)
    requires OneGroup(last) && Continues(last, card.groupKey)
    ensures var longer := CardsOf(last.cards + [card]);
      OneGroup(longer) && longer.cards[0] == last.cards[0] && AtomsOf(longer) == AtomsOf(last) + [Agent(card)]
  {
    assert last.cards[|last.cards| - 1] in last.cards;
  }

  lemma {:induction false} NewTurn(last: Segment, card: Card)
    requires OneGroup(last) && !Continues(last, card.groupKey)
    ensures !SameGroup(last, CardsOf([card]))
  {
    assert last.CardsOf? ==> last.cards[|last.cards| - 1] in last.cards;
  }

  lemma {:induction false} AddCardExact(segments: seq<Segment>, card: Card)
    requires Maximal(segments)
    ensures Flatten(AddCard(segments, card)) == Flatten(segments) + [Agent(card)]
    ensures Maximal(AddCard(segments, card))
  {
    if segments != [] && Continues(segments[|segments| - 1], card.groupKey) {
      var front, last := segments[..|segments| - 1], segments[|segments| - 1];
      LongerTurn(last, card);
      AddSegment(front, CardsOf(last.cards + [card]));
    } else {
      if segments != [] { NewTurn(segments[|segments| - 1], card); }
      AddSegment(segments, CardsOf([card]));
      assert AtomsOf(CardsOf([card])) == [Agent(card)];
    }
  }

  lemma {:induction false} AddAtomExact(segments: seq<Segment>, atom: Atom)
    requires Maximal(segments)
    ensures Flatten(AddAtom(segments, atom)) == Flatten(segments) + [atom]
    ensures Maximal(AddAtom(segments, atom))
  {
    match atom
    case Infra(row) => AddSegment(segments, RowOf(row));
    case Agent(card) => AddCardExact(segments, card);
  }

  /** Grouping loses nothing and keeps the order, every turn is of one group, and no two adjacent
      turns are of the same group. */
  lemma {:induction false} GroupingIsExact(atomic: seq<Atom>)
    ensures Flatten(Segments(atomic)) == atomic
    ensures Maximal(Segments(atomic))
  {
    if atomic != [] {
      var front, last := atomic[..|atomic| - 1], atomic[|atomic| - 1];
      GroupingIsExact(front);
      AddAtomExact(Segments(front), last);
      assert atomic == front + [last];
      SegmentsSide(front, last);
    }
  }

  // ---------- Conservation ----------

  /** How often `e` is shown on the cards. */
  function Shown(cards: seq<Card>, e: AgentEvent): nat {
    if cards == [] then 0
    else Shown(cards[..|cards| - 1], e) + multiset(cards[|cards| - 1].events)[e]
  }

  function Commands(some: seq<AgentEvent>, base: string): nat {
    if some == [] then 0
    else Commands(some[..|some| - 1], base) + if IsCommandOf(some[|some| - 1], base) then 1 else 0
  }

  lemma {:induction false} LastOutputIsOutput(events: seq<AgentEvent>, base: string)
    ensures LastOutput(events, base).Some? ==>
      LastOutput(events, base).value in events && IsOutputOf(LastOutput(events, base).value, base)
    ensures LastOutput(events, base).None? ==> forall e :: e in events ==> !IsOutputOf(e, base)
  {
    if events != [] {
      LastOutputIsOutput(events[..|events| - 1], base);
      assert events == events[..|events| - 1] + [events[|events| - 1]];
    }
  }

  lemma {:induction false} CommandsCount(some: seq<AgentEvent>, base: string)
    ensures Commands(some, base) > 0 <==> base in CommandBases(some)
  {
    if some != [] {
      CommandsCount(some[..|some| - 1], base);
      assert some == some[..|some| - 1] + [some[|some| - 1]];
    }
  }

  /** How often one card shows `e`: as itself, or as the output of the command it is for. */
  lemma {:induction false} MembersShow(all: seq<AgentEvent>, c: AgentEvent, e: AgentEvent)
    ensures multiset(Members(all, c))[e] ==
      (if c == e then 1 else 0) +
      (if IsCommandOf(c, IdBase(e.id)) && LastOutput(all, IdBase(e.id)) == Some(e) then 1 else 0)
  {
    LastOutputIsOutput(all, IdBase(c.id));
    LastOutputIsOutput(all, IdBase(e.id));
  }

  lemma {:induction false} ShownAdd(cards: seq<Card>, card: Card, e: AgentEvent)
    ensures Shown(cards + [card], e) == Shown(cards, e) + multiset(card.events)[e]
  {
    assert (cards + [card])[..|cards|] == cards;
  }

  lemma {:induction false} ShownStep(all: seq<AgentEvent>, some: seq<AgentEvent>, e: AgentEvent)
    requires some != []
    ensures Shown(Cards(all, some), e) == Shown(Cards(all, some[..|some| - 1]), e) +
      if IsPaired(all, some[|some| - 1]) then 0 else multiset(Members(all, some[|some| - 1]))[e]
  {
    ShownAdd(Cards(all, some[..|some| - 1]), CardOf(all, some[|some| - 1]), e);
  }

  lemma {:induction false} CountLast(some: seq<AgentEvent>, e: AgentEvent)
    requires some != []
    ensures multiset(some)[e] == multiset(some[..|some| - 1])[e] + if some[|some| - 1] == e then 1 else 0
  {
    assert some == some[..|some| - 1] + [some[|some| - 1]];
  }

  /** How often the cards of `some` show `e`: as itself, and as the last output of its base. */
  function Showings(all: seq<AgentEvent>, some: seq<AgentEvent>, e: AgentEvent): nat {
    (if IsPaired(all, e) then 0 else multiset(some)[e]) +
    (if LastOutput(all, IdBase(e.id)) == Some(e) then Commands(some, IdBase(e.id)) else 0)
  }

  lemma {:induction false} ShowingsStep(all: seq<AgentEvent>, some: seq<AgentEvent>, e: AgentEvent)
    requires some != []
    ensures Showings(all, some, e) == Showings(all, some[..|some| - 1], e) +
      if IsPaired(all, some[|some| - 1]) then 0 else multiset(Members(all, some[|some| - 1]))[e]
  {
    var last := some[|some| - 1];
    CountLast(some, e);
    MembersShow(all, last, e);
    LastOutputIsOutput(all, IdBase(e.id));
    CommandsCount(all, IdBase(e.id));
  }

  /** An output that belongs to a command is shown only on command cards, once per command of its
      base if it is the last output there; everything else is shown as often as it occurs. */
  lemma {:induction false} CardsShow(all: seq<AgentEvent>, some: seq<AgentEvent>, e: AgentEvent)
    ensures Shown(Cards(all, some), e) == Showings(all, some, e)
  {
    if some != [] {
      CardsShow(all, some[..|some| - 1], e);
      ShownStep(all, some, e);
      ShowingsStep(all, some, e);
    }
  }

  /** No event is shown twice or lost by the cards iff, in every base that has both, there is one
      command and one output. */
  ghost predicate PairsAreSingle(visible: seq<AgentEvent>) {
    forall e :: e in visible && IsPaired(visible, e) ==>
      && Commands(visible, IdBase(e.id)) == 1
      && LastOutput(visible, IdBase(e.id)) == Some(e)
  }

  lemma {:induction false} CardsConserve(visible: seq<AgentEvent>)
    requires Distinct(visible)
    ensures (forall e :: Shown(Cards(visible, visible), e) == multiset(visible)[e]) <==> PairsAreSingle(visible)
  {
    DistinctByCount(visible);
    forall e ensures Shown(Cards(visible, visible), e) == multiset(visible)[e] <==>
      (e in visible && IsPaired(visible, e) ==>
        Commands(visible, IdBase(e.id)) == 1 && LastOutput(visible, IdBase(e.id)) == Some(e))
    {
      CardsShow(visible, visible, e);
      LastOutputIsOutput(visible, IdBase(e.id));
      CommandsCount(visible, IdBase(e.id));
      assert e in visible <==> multiset(visible)[e] > 0;
    }
    if PairsAreSingle(visible) {
      forall e ensures Shown(Cards(visible, visible), e) == multiset(visible)[e] {
      }
    }
    if forall e :: Shown(Cards(visible, visible), e) == multiset(visible)[e] {
      forall e | e in visible && IsPaired(visible, e)
        ensures Commands(visible, IdBase(e.id)) == 1 && LastOutput(visible, IdBase(e.id)) == Some(e)
      {
        assert Shown(Cards(visible, visible), e) == multiset(visible)[e];
      }
    }
  }

  lemma {:induction false} ShownHead(cards: seq<Card>, e: AgentEvent)
    requires cards != []
    ensures Shown(cards, e) == multiset(cards[0].events)[e] + Shown(cards[1..], e)
  {
    if |cards| > 1 {
      ShownHead(cards[..|cards| - 1], e);
      assert cards[..|cards| - 1][1..] == cards[1..][..|cards| - 2];
    }
  }

  lemma {:induction false} ShownInsert(le: (Card, Card) -> bool, card: Card, cards: seq<Card>, e: AgentEvent)
    ensures Shown(Insert(le, card, cards), e) == multiset(card.events)[e] + Shown(cards, e)
  {
    var r := Insert(le, card, cards);
    ShownHead(r, e);
    if cards == [] || le(card, cards[0]) {
      assert r[1..] == cards;
    } else {
      ShownHead(cards, e);
      ShownInsert(le, card, cards[1..], e);
      assert r[1..] == Insert(le, card, cards[1..]);
    }
  }

  /** Sorting the cards changes nothing about what they show. */
  lemma {:induction false} ShownSort(le: (Card, Card) -> bool, cards: seq<Card>, e: AgentEvent)
    ensures Shown(Sort(le, cards), e) == Shown(cards, e)
  {
    if cards != [] {
      ShownHead(cards, e);
      ShownSort(le, cards[1..], e);
      ShownInsert(le, cards[0], Sort(le, cards[1..]), e);
    }
  }

  /** How often `e` occurs in the turns that are displayed. */
  function Displayed(entries: seq<Entry>, e: AgentEvent): nat {
    if entries == [] then 0
    else
      var last := entries[|entries| - 1];
      Displayed(entries[..|entries| - 1], e) + if last.TurnEntry? then multiset(last.turn.events)[e] else 0
  }

  function RowsOf(entries: seq<Entry>): seq<Row> {
    if entries == [] then []
    else
      var last := entries[|entries| - 1];
      RowsOf(entries[..|entries| - 1]) + if last.InfraEntry? then [last.row] else []
  }

  lemma {:induction false} EventsOfCount(cards: seq<Card>, e: AgentEvent)
    ensures multiset(EventsOf(cards))[e] == Shown(cards, e)
  {
    if cards != [] {
      EventsOfCount(cards[..|cards| - 1], e);
    }
  }

  lemma {:induction false} ShownAppend(a: seq<Card>, b: seq<Card>, e: AgentEvent)
    ensures Shown(a + b, e) == Shown(a, e) + Shown(b, e)
  {
    if b == [] {
      assert a + b == a;
    } else {
      assert (a + b)[..|a + b| - 1] == a + b[..|b| - 1];
      ShownAppend(a, b[..|b| - 1], e);
    }
  }

  lemma {:induction false} AgentAtomsProject(cards: seq<Card>)
    ensures AgentsOf(AgentAtoms(cards)) == cards
    ensures InfraOf(AgentAtoms(cards)) == []
  {
    if cards != [] {
      AgentAtomsProject(cards[..|cards| - 1]);
      assert AgentAtoms(cards)[..|cards| - 1] == AgentAtoms(cards[..|cards| - 1]);
    }
  }

  lemma {:induction false} AtomsProject(segment: Segment)
    ensures AgentsOf(AtomsOf(segment)) == if segment.CardsOf? then segment.cards else []
    ensures InfraOf(AtomsOf(segment)) == if segment.RowOf? then [segment.row] else []
  {
    match segment
    case RowOf(row) => assert AtomsOf(segment)[..0] == [];
    case CardsOf(cards) => AgentAtomsProject(cards);
  }

  /** `entries` shows as often as `atoms` do, and the same rows. */
  ghost predicate ShowsAlike(entries: seq<Entry>, atoms: seq<Atom>, e: AgentEvent) {
    Displayed(entries, e) == Shown(AgentsOf(atoms), e) && RowsOf(entries) == InfraOf(atoms)
  }

  lemma {:induction false} DisplayedAdd(entries: seq<Entry>, entry: Entry, e: AgentEvent)
    ensures Displayed(entries + [entry], e) == Displayed(entries, e) +
      if entry.TurnEntry? then multiset(entry.turn.events)[e] else 0
    ensures RowsOf(entries + [entry]) == RowsOf(entries) + if entry.InfraEntry? then [entry.row] else []
  {
    assert (entries + [entry])[..|entries|] == entries;
  }

  lemma {:induction false} RenderOneShows(segment: Segment, e: AgentEvent)
    ensures (if Render(segment).TurnEntry? then multiset(Render(segment).turn.events)[e] else 0) ==
      Shown(AgentsOf(AtomsOf(segment)), e)
    ensures (if Render(segment).InfraEntry? then [Render(segment).row] else []) == InfraOf(AtomsOf(segment))
  {
    AtomsProject(segment);
    if segment.CardsOf? {
      EventsOfCount(segment.cards, e);
    }
  }

  lemma {:induction false} RenderedAdd(front: seq<Segment>, last: Segment)
    ensures Rendered(front + [last]) == Rendered(front) + [Render(last)]
  {
  }

  lemma {:induction false} RenderSide(front: seq<Segment>, last: Segment, e: AgentEvent)
    ensures Displayed(Rendered(front + [last]), e) == Displayed(Rendered(front), e) + Shown(AgentsOf(AtomsOf(last)), e)
    ensures RowsOf(Rendered(front + [last])) == RowsOf(Rendered(front)) + InfraOf(AtomsOf(last))
  {
    RenderedAdd(front, last);
    DisplayedAdd(Rendered(front), Render(last), e);
    RenderOneShows(last, e);
  }

  lemma {:induction false} FlattenSide(front: seq<Segment>, last: Segment, e: AgentEvent)
    ensures Shown(AgentsOf(Flatten(front + [last])), e) ==
      Shown(AgentsOf(Flatten(front)), e) + Shown(AgentsOf(AtomsOf(last)), e)
    ensures InfraOf(Flatten(front + [last])) == InfraOf(Flatten(front)) + InfraOf(AtomsOf(last))
  {
    assert (front + [last])[..|front|] == front;
    ProjectionsAppend(Flatten(front), AtomsOf(last));
    ShownAppend(AgentsOf(Flatten(front)), AgentsOf(AtomsOf(last)), e);
  }

  lemma {:induction false} RenderedShowsOn(segments: seq<Segment>, front: seq<Segment>, last: Segment, e: AgentEvent)
    requires segments == front + [last] && ShowsAlike(Rendered(front), Flatten(front), e)
    ensures ShowsAlike(Rendered(segments), Flatten(segments), e)
  {
    RenderSide(front, last, e);
    FlattenSide(front, last, e);
  }

  lemma {:induction false} NothingShows(segments: seq<Segment>, e: AgentEvent)
    requires segments == []
    ensures ShowsAlike(Rendered(segments), Flatten(segments), e)
  {
  }

  lemma {:induction false} RenderedShowsAlike(segments: seq<Segment>, e: AgentEvent)
    ensures ShowsAlike(Rendered(segments), Flatten(segments), e)
  {
    if segments == [] {
      NothingShows(segments, e);
    } else {
      var front, last := segments[..|segments| - 1], segments[|segments| - 1];
      RenderedShowsAlike(front, e);
      RenderedShowsOn(segments, front, last, e);
    }
  }

  lemma {:induction false} RenderedShows(segments: seq<Segment>, e: AgentEvent)
    ensures Displayed(Rendered(segments), e) == Shown(AgentsOf(Flatten(segments)), e)
    ensures RowsOf(Rendered(segments)) == InfraOf(Flatten(segments))
  {
    RenderedShowsAlike(segments, e);
  }

  /** End to end: every infra row is displayed exactly once and in server order, every event as often
      as its card shows it. */
  lemma {:induction false} DisplayConserves(cmp: (string, string) -> int, visible: seq<AgentEvent>, rows: seq<Row>,
      e: AgentEvent)
    ensures var entries := Rendered(Segments(Atomic(cmp, visible, rows)));
      && Displayed(entries, e) == Showings(visible, visible, e)
      && RowsOf(entries) == OrderInfra(TimelineOptions(), rows)
      && multiset(RowsOf(entries)) == multiset(rows)
  {
    var cards := Cards(visible, visible);
    var atomic := Atomic(cmp, visible, rows);
    MergeIsInterleaving(TimelineOptions(), Sort(CardLe(cmp), cards), rows);
    GroupingIsExact(atomic);
    RenderedShows(Segments(atomic), e);
    ShownSort(CardLe(cmp), cards, e);
    CardsShow(visible, visible, e);
  }

  /** Every visible event is displayed in exactly one place, if and only if every base with both a
      command and an output has one of each. */
  lemma {:induction false} EveryEventOnce(cmp: (string, string) -> int, visible: seq<AgentEvent>, rows: seq<Row>)
    requires Distinct(visible)
    ensures (forall e :: Displayed(Rendered(Segments(Atomic(cmp, visible, rows))), e) == if e in visible then 1 else 0)
      <==> PairsAreSingle(visible)
  {
    CardsConserve(visible);
    DistinctByCount(visible);
    forall e ensures Displayed(Rendered(Segments(Atomic(cmp, visible, rows))), e) == Shown(Cards(visible, visible), e)
      && multiset(visible)[e] == if e in visible then 1 else 0
    {
      DisplayConserves(cmp, visible, rows, e);
      CardsShow(visible, visible, e);
      assert e in visible <==> multiset(visible)[e] > 0;
    }
  }

  lemma {:induction false} CardOfEvent(all: seq<AgentEvent>, some: seq<AgentEvent>, e: AgentEvent)
    requires e in some && !IsPaired(all, e)
    ensures CardOf(all, e) in Cards(all, some)
  {
    if some[|some| - 1] != e {
      assert some == some[..|some| - 1] + [some[|some| - 1]];
      CardOfEvent(all, some[..|some| - 1], e);
    }
  }

  lemma {:induction false} LastOrFront(segments: seq<Segment>, front: seq<Segment>, last: Segment, card: Card)
    requires segments != [] && front == segments[..|segments| - 1] && last == segments[|segments| - 1]
    requires card in AgentsOf(Flatten(segments))
    ensures card in AgentsOf(Flatten(front)) || (last.CardsOf? && card in last.cards)
  {
    ProjectionsAppend(Flatten(front), AtomsOf(last));
    AtomsProject(last);
  }

  lemma {:induction false} SegmentOfCard(segments: seq<Segment>, card: Card) returns (i: nat)
    requires card in AgentsOf(Flatten(segments))
    ensures i < |segments| && segments[i].CardsOf? && card in segments[i].cards
  {
    var front, last := segments[..|segments| - 1], segments[|segments| - 1];
    LastOrFront(segments, front, last, card);
    if card in AgentsOf(Flatten(front)) {
      i := SegmentOfCard(front, card);
    } else {
      i := |segments| - 1;
    }
  }

  lemma {:induction false} EventsOfCard(cards: seq<Card>, card: Card) returns (k: nat)
    requires card in cards
    ensures k + |card.events| <= |EventsOf(cards)|
    ensures forall i :: 0 <= i < |card.events| ==> EventsOf(cards)[k + i] == card.events[i]
  {
    var front, last := cards[..|cards| - 1], cards[|cards| - 1];
    if last == card {
      k := |EventsOf(front)|;
    } else {
      assert cards == front + [last];
      k := EventsOfCard(front, card);
    }
  }

  lemma {:induction false} EventsInTurn(segments: seq<Segment>, i: nat, card: Card) returns (k: nat)
    requires i < |segments| && segments[i].CardsOf? && card in segments[i].cards && |card.events| == 2
    ensures var entries := Rendered(segments);
      && entries[i].TurnEntry?
      && k + 1 < |entries[i].turn.events|
      && entries[i].turn.events[k] == card.events[0]
      && entries[i].turn.events[k + 1] == card.events[1]
  {
    var cards := segments[i].cards;
    k := EventsOfCard(cards, card);
    assert EventsOf(cards)[k + 0] == card.events[0] && EventsOf(cards)[k + 1] == card.events[1];
    assert Rendered(segments)[i] == Render(CardsOf(cards)) && Render(CardsOf(cards)).turn.events == EventsOf(cards);
  }

  /** Both events of a paired card are next to one another in one turn. */
  lemma {:induction false} TurnOfCard(atomic: seq<Atom>, card: Card) returns (i: nat, k: nat)
    requires card in AgentsOf(atomic) && |card.events| == 2
    ensures var entries := Rendered(Segments(atomic));
      && i < |entries| && entries[i].TurnEntry?
      && k + 1 < |entries[i].turn.events|
      && entries[i].turn.events[k] == card.events[0]
      && entries[i].turn.events[k + 1] == card.events[1]
  {
    GroupingIsExact(atomic);
    i := SegmentOfCard(Segments(atomic), card);
    k := EventsInTurn(Segments(atomic), i, card);
  }

  /** A command is immediately followed by its output, in one turn, wherever the infra rows fall. */
  lemma {:induction false} CommandThenOutput(cmp: (string, string) -> int, visible: seq<AgentEvent>, rows: seq<Row>,
      c: AgentEvent)
    returns (i: nat, k: nat)
    requires c in visible && c.kind.TerminalCommand? && LastOutput(visible, IdBase(c.id)).Some?
    ensures var entries := Rendered(Segments(Atomic(cmp, visible, rows)));
      && i < |entries| && entries[i].TurnEntry?
      && k + 1 < |entries[i].turn.events|
      && entries[i].turn.events[k] == c
      && entries[i].turn.events[k + 1] == LastOutput(visible, IdBase(c.id)).value
  {
    var card := CardOf(visible, c);
    var atomic := Atomic(cmp, visible, rows);
    CardOfEvent(visible, visible, c);
    SortMembers(CardLe(cmp), Cards(visible, visible));
    MergeIsInterleaving(TimelineOptions(), Sort(CardLe(cmp), Cards(visible, visible)), rows);
    i, k := TurnOfCard(atomic, card);
  }

  // ---------- The two orders ----------

  lemma {:induction false} CardOrderTransitive(cmp: (string, string) -> int, a: Card, b: Card, c: Card)
    requires Collates(cmp)
    requires CompareCards(cmp, a, b) <= 0 && CompareCards(cmp, b, c) <= 0
    ensures CompareCards(cmp, a, c) <= 0
  {
    if a.producerTs == b.producerTs == c.producerTs {
      CollatesBothWays(cmp, a.signal, b.signal);
      CollatesBothWays(cmp, b.signal, c.signal);
      CollatesBothWays(cmp, a.signal, c.signal);
      assert cmp(a.signal, c.signal) <= 0;
      if cmp(a.signal, c.signal) == 0 {
        assert cmp(c.signal, b.signal) <= 0 && cmp(b.signal, a.signal) <= 0;
        if a.rawSeq == b.rawSeq == c.rawSeq {
          assert cmp(a.key, b.key) <= 0 && cmp(b.key, c.key) <= 0;
        }
      }
    }
  }

  /** The card comparator is consistent too. */
  lemma {:induction false} CardOrderIsTotal(cmp: (string, string) -> int)
    requires Collates(cmp)
    ensures TotalPreorder(CardLe(cmp))
  {
    forall a, b, c | CardLe(cmp)(a, b) && CardLe(cmp)(b, c) ensures CardLe(cmp)(a, c) {
      CardOrderTransitive(cmp, a, b, c);
    }
    forall a, b ensures CardLe(cmp)(a, b) || CardLe(cmp)(b, a) {
      CollatesBothWays(cmp, a.signal, b.signal);
      CollatesBothWays(cmp, a.key, b.key);
    }
  }

  /** The timeline sorts an event with no readable time first where the accumulator sorts it last: the
      two comparators agree on a pair exactly when both times are readable or neither is. */
  lemma {:induction false} OrdersAgree(cmp: (string, string) -> int, all: seq<AgentEvent>, e: AgentEvent, f: AgentEvent)
    ensures CompareCards(cmp, CardOf(all, e), CardOf(all, f)) == CompareAgentEvents(cmp, e, f) <==>
      (e.ts.At? <==> f.ts.At?)
  {
    var a, b := CardOf(all, e), CardOf(all, f);
    assert a.key == e.id && b.key == f.id && a.rawSeq == e.rawSeq && b.rawSeq == f.rawSeq;
    assert a.producerTs == b.producerTs <==> e.ts.Finite() == f.ts.Finite();
  }

  /** The events that have a card of their own, in order. */
  function Heads(all: seq<AgentEvent>, some: seq<AgentEvent>): seq<AgentEvent> {
    if some == [] then []
    else
      var before := Heads(all, some[..|some| - 1]);
      if IsPaired(all, some[|some| - 1]) then before else before + [some[|some| - 1]]
  }

  lemma {:induction false} HeadsAre(all: seq<AgentEvent>, some: seq<AgentEvent>)
    ensures forall e :: e in Heads(all, some) <==> e in some && !IsPaired(all, e)
    ensures |Cards(all, some)| == |Heads(all, some)|
    ensures forall i :: 0 <= i < |Heads(all, some)| ==> Cards(all, some)[i] == CardOf(all, Heads(all, some)[i])
  {
    if some != [] {
      HeadsAre(all, some[..|some| - 1]);
      assert some == some[..|some| - 1] + [some[|some| - 1]];
    }
  }

  lemma {:induction false} HeadsSorted(le: (AgentEvent, AgentEvent) -> bool, all: seq<AgentEvent>,
      some: seq<AgentEvent>)
    requires Sorted(le, some)
    ensures Sorted(le, Heads(all, some))
  {
    if some != [] {
      var front := some[..|some| - 1];
      HeadsSorted(le, all, front);
      HeadsAre(all, front);
      forall i | 0 <= i < |Heads(all, front)| ensures le(Heads(all, front)[i], some[|some| - 1]) {
        assert Heads(all, front)[i] in front;
      }
    }
  }

  /** Both times are readable, or neither is. */
  predicate SameReadability(e: AgentEvent, f: AgentEvent) {
    e.ts.At? <==> f.ts.At?
  }

  /** In the accumulator's order, an event goes before another on the timeline too exactly when one
      kind of time is not mixed with the other. */
  lemma {:induction false} CardsInOrder(cmp: (string, string) -> int, all: seq<AgentEvent>, e: AgentEvent,
      f: AgentEvent)
    requires EventLe(cmp)(e, f)
    ensures CardLe(cmp)(CardOf(all, e), CardOf(all, f)) <==> SameReadability(e, f)
  {
    OrdersAgree(cmp, all, e, f);
  }

  lemma {:induction false} SortedCards(cmp: (string, string) -> int, all: seq<AgentEvent>, heads: seq<AgentEvent>,
      cards: seq<Card>)
    requires Sorted(EventLe(cmp), heads) && |cards| == |heads|
    requires forall i :: 0 <= i < |heads| ==> cards[i] == CardOf(all, heads[i])
    ensures Sorted(CardLe(cmp), cards) <==> forall e, f :: e in heads && f in heads ==> SameReadability(e, f)
  {
    forall i, j | 0 <= i < j < |heads| ensures CardLe(cmp)(cards[i], cards[j]) <==>
      SameReadability(heads[i], heads[j]) {
      CardsInOrder(cmp, all, heads[i], heads[j]);
    }
    if Sorted(CardLe(cmp), cards) {
      forall e, f | e in heads && f in heads ensures SameReadability(e, f) {
        var i, j :| 0 <= i < |heads| && heads[i] == e && 0 <= j < |heads| && heads[j] == f;
        if i < j { assert CardLe(cmp)(cards[i], cards[j]); }
        if j < i { assert CardLe(cmp)(cards[j], cards[i]); }
      }
    }
  }

  /** The timeline keeps the accumulator's order exactly when the events with a card of their own all
      have readable times or all have none. */
  lemma {:induction false} TimelineKeepsOrder(cmp: (string, string) -> int, visible: seq<AgentEvent>)
    requires Collates(cmp) && Sorted(EventLe(cmp), visible)
    ensures Sort(CardLe(cmp), Cards(visible, visible)) == Cards(visible, visible) <==>
      forall e, f :: e in visible && f in visible && !IsPaired(visible, e) && !IsPaired(visible, f) ==>
        SameReadability(e, f)
  {
    var heads, cards := Heads(visible, visible), Cards(visible, visible);
    CardOrderIsTotal(cmp);
    SortFixes(CardLe(cmp), cards);
    HeadsAre(visible, visible);
    HeadsSorted(EventLe(cmp), visible, visible);
    SortedCards(cmp, visible, heads, cards);
    assert forall e :: e in heads <==> e in visible && !IsPaired(visible, e);
  }
}
