/** Time travel over a terrain (live-trace/terrain-fold.ts): the base graph plus the first `k + 1`
    updates, folded by array position. */
module TerrainFold {
  import opened Prelude

  type Id = string

  datatype NodeState = Defined | Discovered | Completed {
    function Rank(): nat {
      match this
      case Defined => 0
      case Discovered => 1
      case Completed => 2
    }
  }

  datatype Node = Node(id: Id, name: string, kind: string, group: Id, state: NodeState)
  datatype Group = Group(id: Id, order: int, discovered: bool)
  datatype Edge = Edge(id: Id, src: Id, dst: Id, active: bool)

  datatype TargetKind = NodeTarget | GroupTarget | EdgeTarget

  /** One entry of the update log. An absent `discovered` or `active` reads as false, as it does in
      the source's truth tests. */
  datatype Update = Update(
    seqNo: int, targetKind: TargetKind, targetId: Id,
    state: Option<NodeState>, discovered: bool, active: bool,
    eventId: Option<string>, ts: Option<string>, note: Option<string>)

  datatype Terrain = Terrain(nodes: seq<Node>, groups: seq<Group>, edges: seq<Edge>, updates: seq<Update>)

  datatype FoldedNode = FoldedNode(node: Node, state: NodeState)
  datatype FoldedGroup = FoldedGroup(group: Group, discovered: bool)
  datatype FoldedEdge = FoldedEdge(edge: Edge, active: bool)
  datatype Pulse = Pulse(nodes: set<Id>, groups: set<Id>, edges: set<Id>)
  datatype FoldedTerrain = FoldedTerrain(
    groups: seq<FoldedGroup>, nodes: seq<FoldedNode>, edges: seq<FoldedEdge>, pulse: Pulse)

  // ---------- Specification ----------

  /** The updates that a fold to index `k` takes in. */
  function Prefix(updates: seq<Update>, k: int): seq<Update> {
    updates[..Max(0, Min(k, |updates| - 1) + 1)]
  }

  /** `map.set` for each element in turn: a repeated id keeps its last value. */
  function NodeBase(nodes: seq<Node>): map<Id, NodeState> {
    if nodes == [] then map[]
    else NodeBase(nodes[..|nodes| - 1])[nodes[|nodes| - 1].id := nodes[|nodes| - 1].state]
  }

  function GroupBase(groups: seq<Group>): map<Id, bool> {
    if groups == [] then map[]
    else GroupBase(groups[..|groups| - 1])[groups[|groups| - 1].id := groups[|groups| - 1].discovered]
  }

  function EdgeBase(edges: seq<Edge>): map<Id, bool> {
    if edges == [] then map[]
    else EdgeBase(edges[..|edges| - 1])[edges[|edges| - 1].id := edges[|edges| - 1].active]
  }

  /** The update offers a state to the node `id`. */
  predicate Offers(u: Update, id: Id) {
    u.targetKind == NodeTarget && u.targetId == id && u.state.Some?
  }

  function Higher(a: NodeState, b: NodeState): NodeState {
    if b.Rank() > a.Rank() then b else a
  }

  /** The state of node `id` after `ups`, starting from `base`. */
  function Climb(base: NodeState, ups: seq<Update>, id: Id): NodeState {
    if ups == [] then base
    else
      var before := Climb(base, ups[..|ups| - 1], id);
      var u := ups[|ups| - 1];
      if Offers(u, id) then Higher(before, u.state.value) else before
  }

  function NodesAfter(base: map<Id, NodeState>, ups: seq<Update>): map<Id, NodeState> {
    map id | id in base :: Climb(base[id], ups, id)
  }

  /** Flags that only ever go from false to true. */
  function Latch(base: map<Id, bool>, on: set<Id>): map<Id, bool> {
    map id | id in base :: base[id] || id in on
  }

  function Revealed(ups: seq<Update>): set<Id> {
    set u | u in ups && u.targetKind == GroupTarget && u.discovered :: u.targetId
  }

  function Activated(ups: seq<Update>): set<Id> {
    set u | u in ups && u.targetKind == EdgeTarget && u.active :: u.targetId
  }

  function AgentIds(nodes: seq<Node>): set<Id> {
    set n | n in nodes && n.kind == "agent" :: n.id
  }

  predicate Reached(states: map<Id, NodeState>, id: Id) {
    id in states && states[id] != Defined
  }

  /** The edge runs from an agent to a reached node that only agents lead into. */
  predicate Arrival(edges: seq<Edge>, agents: set<Id>, states: map<Id, NodeState>, e: Edge) {
    && e.src in agents
    && Reached(states, e.dst)
    && forall x | x in edges && x.dst == e.dst :: x.src in agents
  }

  /** The ids of the arrivals among `some` of the edges. */
  function ArrivalIds(some: seq<Edge>, edges: seq<Edge>, agents: set<Id>, states: map<Id, NodeState>): set<Id> {
    set e | e in some && Arrival(edges, agents, states, e) :: e.id
  }

  function Arrivals(t: Terrain, states: map<Id, NodeState>): set<Id> {
    ArrivalIds(t.edges, t.edges, AgentIds(t.nodes), states)
  }

  function States(t: Terrain, k: int): map<Id, NodeState> {
    NodesAfter(NodeBase(t.nodes), Prefix(t.updates, k))
  }

  function Shown(t: Terrain, k: int): map<Id, bool> {
    Latch(GroupBase(t.groups), Revealed(Prefix(t.updates, k)))
  }

  function Lit(t: Terrain, k: int): map<Id, bool> {
    Latch(EdgeBase(t.edges), Activated(Prefix(t.updates, k)) + Arrivals(t, States(t, k)))
  }

  lemma {:induction false} NodeBaseKeys(nodes: seq<Node>)
    ensures forall n :: n in nodes ==> n.id in NodeBase(nodes)
  {
    if nodes != [] {
      var front, last := nodes[..|nodes| - 1], nodes[|nodes| - 1];
      NodeBaseKeys(front);
      assert nodes == front + [last];
    }
  }

  lemma {:induction false} GroupBaseKeys(groups: seq<Group>)
    ensures forall g :: g in groups ==> g.id in GroupBase(groups)
  {
    if groups != [] {
      var front, last := groups[..|groups| - 1], groups[|groups| - 1];
      GroupBaseKeys(front);
      assert groups == front + [last];
    }
  }

  lemma {:induction false} EdgeBaseKeys(edges: seq<Edge>)
    ensures forall e :: e in edges ==> e.id in EdgeBase(edges)
  {
    if edges != [] {
      var front, last := edges[..|edges| - 1], edges[|edges| - 1];
      EdgeBaseKeys(front);
      assert edges == front + [last];
    }
  }

  function Pulsed(t: Terrain, pulseIds: Option<set<Id>>): Pulse {
    var ids := pulseIds.GetOr({});
    Pulse(
      ids * (set n | n in t.nodes :: n.id),
      ids * (set g | g in t.groups :: g.id),
      ids * (set e | e in t.edges :: e.id))
  }

  predicate NodeShows(n: Node, f: FoldedNode, states: map<Id, NodeState>) {
    n.id in states && f == FoldedNode(n, states[n.id])
  }

  predicate GroupShows(g: Group, f: FoldedGroup, shown: map<Id, bool>) {
    g.id in shown && f == FoldedGroup(g, shown[g.id])
  }

  predicate EdgeShows(e: Edge, f: FoldedEdge, lit: map<Id, bool>) {
    e.id in lit && f == FoldedEdge(e, lit[e.id])
  }

  /** Element by element, `f` shows what the three maps say. */
  ghost predicate Shows(t: Terrain, states: map<Id, NodeState>, shown: map<Id, bool>, lit: map<Id, bool>,
      f: FoldedTerrain) {
    && |f.nodes| == |t.nodes| && |f.groups| == |t.groups| && |f.edges| == |t.edges|
    && (forall i :: 0 <= i < |t.nodes| ==> NodeShows(t.nodes[i], f.nodes[i], states))
    && (forall i :: 0 <= i < |t.groups| ==> GroupShows(t.groups[i], f.groups[i], shown))
    && (forall i :: 0 <= i < |t.edges| ==> EdgeShows(t.edges[i], f.edges[i], lit))
  }

  /** `f` is the graph of `t` at fold point `k`. */
  ghost predicate FoldsTo(t: Terrain, k: int, f: FoldedTerrain) {
    Shows(t, States(t, k), Shown(t, k), Lit(t, k), f)
  }

  // ---------- The fold as the source runs it ----------

  lemma {:induction false} NodesAfterOne(base: map<Id, NodeState>, u: Update)
    ensures NodesAfter(base, [u]) ==
      map id | id in base :: if Offers(u, id) then Higher(base[id], u.state.value) else base[id]
  {
    assert [u][..0] == [];
    assert forall id | id in base :: Climb(base[id], [u][..0], id) == base[id];
  }

  /** The three maps that the fold loop updates in place. */
  class FoldMaps {
    var nodeState: map<Id, NodeState>
    var groupDiscovered: map<Id, bool>
    var edgeActive: map<Id, bool>

    constructor ()
      ensures nodeState == map[] && groupDiscovered == map[] && edgeActive == map[]
    {
      nodeState, groupDiscovered, edgeActive := map[], map[], map[];
    }

    /** One update. An unknown target is ignored, states only climb and flags only latch. */
    method ApplyUpdate(update: Update)
      modifies this
      ensures nodeState == NodesAfter(old(nodeState), [update])
      ensures groupDiscovered == Latch(old(groupDiscovered), Revealed([update]))
      ensures edgeActive == Latch(old(edgeActive), Activated([update]))
    {
      NodesAfterOne(nodeState, update);
      match update.targetKind
      case NodeTarget =>
        if update.targetId !in nodeState { return; }
        if update.state.None? { return; }
        var current := nodeState[update.targetId];
        if update.state.value.Rank() > current.Rank() {
          nodeState := nodeState[update.targetId := update.state.value];
        }
      case GroupTarget =>
        if update.targetId !in groupDiscovered { return; }
        if update.discovered {
          groupDiscovered := groupDiscovered[update.targetId := true];
        }
      case EdgeTarget =>
        if update.targetId !in edgeActive { return; }
        if update.active {
          edgeActive := edgeActive[update.targetId := true];
        }
    }
  }

  /** `inboundByDst`: the edges into each id that has any. */
  method IndexByDst(edges: seq<Edge>) returns (inbound: map<Id, seq<Edge>>)
    ensures forall d :: d in inbound <==> exists e :: e in edges && e.dst == d
    ensures forall d :: d in inbound ==> forall e :: e in inbound[d] <==> e in edges && e.dst == d
  {
    inbound := map[];
    for i := 0 to |edges|
      invariant forall d :: d in inbound <==> exists e :: e in edges[..i] && e.dst == d
      invariant forall d :: d in inbound ==> forall e :: e in inbound[d] <==> e in edges[..i] && e.dst == d
    {
      var e := edges[i];
      assert edges[..i + 1] == edges[..i] + [e];
      if e.dst in inbound {
        inbound := inbound[e.dst := inbound[e.dst] + [e]];
      } else {
        inbound := inbound[e.dst := [e]];
      }
    }
    assert edges[..|edges|] == edges;
  }

  method LoadBase(t: Terrain) returns (maps: FoldMaps)
    ensures fresh(maps)
    ensures maps.nodeState == NodeBase(t.nodes)
    ensures maps.groupDiscovered == GroupBase(t.groups)
    ensures maps.edgeActive == EdgeBase(t.edges)
  {
    maps := new FoldMaps();
    for i := 0 to |t.nodes|
      invariant maps.nodeState == NodeBase(t.nodes[..i])
      invariant maps.groupDiscovered == map[] && maps.edgeActive == map[]
    {
      assert t.nodes[..i + 1][..i] == t.nodes[..i];
      maps.nodeState := maps.nodeState[t.nodes[i].id := t.nodes[i].state];
    }
    assert t.nodes[..|t.nodes|] == t.nodes;
    for i := 0 to |t.groups|
      invariant maps.nodeState == NodeBase(t.nodes) && maps.groupDiscovered == GroupBase(t.groups[..i])
      invariant maps.edgeActive == map[]
    {
      assert t.groups[..i + 1][..i] == t.groups[..i];
      maps.groupDiscovered := maps.groupDiscovered[t.groups[i].id := t.groups[i].discovered];
    }
    assert t.groups[..|t.groups|] == t.groups;
    for i := 0 to |t.edges|
      invariant maps.nodeState == NodeBase(t.nodes) && maps.groupDiscovered == GroupBase(t.groups)
      invariant maps.edgeActive == EdgeBase(t.edges[..i])
    {
      assert t.edges[..i + 1][..i] == t.edges[..i];
      maps.edgeActive := maps.edgeActive[t.edges[i].id := t.edges[i].active];
    }
    assert t.edges[..|t.edges|] == t.edges;
  }

  lemma {:induction false} ClimbAppend(base: NodeState, a: seq<Update>, b: seq<Update>, id: Id)
    ensures Climb(base, a + b, id) == Climb(Climb(base, a, id), b, id)
  {
    if b == [] {
      assert a + b == a;
    } else {
      var front := b[..|b| - 1];
      assert (a + b)[..|a + b| - 1] == a + front;
      ClimbAppend(base, a, front, id);
    }
  }

  lemma {:induction false} NodesAfterAppend(base: map<Id, NodeState>, a: seq<Update>, b: seq<Update>)
    ensures NodesAfter(base, a + b) == NodesAfter(NodesAfter(base, a), b)
  {
    forall id | id in base ensures Climb(base[id], a + b, id) == Climb(Climb(base[id], a, id), b, id) {
      ClimbAppend(base[id], a, b, id);
    }
  }

  lemma {:induction false} LatchesAppend(groups: map<Id, bool>, edges: map<Id, bool>, a: seq<Update>, b: seq<Update>)
    ensures Latch(groups, Revealed(a + b)) == Latch(Latch(groups, Revealed(a)), Revealed(b))
    ensures Latch(edges, Activated(a + b)) == Latch(Latch(edges, Activated(a)), Activated(b))
  {
    assert Revealed(a + b) == Revealed(a) + Revealed(b);
    assert Activated(a + b) == Activated(a) + Activated(b);
  }

  method ApplyPrefix(updates: seq<Update>, k: int, maps: FoldMaps)
    modifies maps
    ensures maps.nodeState == NodesAfter(old(maps.nodeState), Prefix(updates, k))
    ensures maps.groupDiscovered == Latch(old(maps.groupDiscovered), Revealed(Prefix(updates, k)))
    ensures maps.edgeActive == Latch(old(maps.edgeActive), Activated(Prefix(updates, k)))
  {
    var upperBound := Min(k, |updates| - 1);
    var i := 0;
    while i <= upperBound
      invariant 0 <= i <= Max(0, upperBound + 1)
      invariant maps.nodeState == NodesAfter(old(maps.nodeState), updates[..i])
      invariant maps.groupDiscovered == Latch(old(maps.groupDiscovered), Revealed(updates[..i]))
      invariant maps.edgeActive == Latch(old(maps.edgeActive), Activated(updates[..i]))
    {
      maps.ApplyUpdate(updates[i]);
      assert updates[..i + 1] == updates[..i] + [updates[i]];
      NodesAfterAppend(old(maps.nodeState), updates[..i], [updates[i]]);
      LatchesAppend(old(maps.groupDiscovered), old(maps.edgeActive), updates[..i], [updates[i]]);
      i := i + 1;
    }
    assert updates[..i] == Prefix(updates, k);
  }

  lemma {:induction false} ArrivalIdsStep(edges: seq<Edge>, i: nat, agents: set<Id>, states: map<Id, NodeState>)
    requires i < |edges|
    ensures ArrivalIds(edges[..i + 1], edges, agents, states) == ArrivalIds(edges[..i], edges, agents, states)
      + (if Arrival(edges, agents, states, edges[i]) then {edges[i].id} else {})
  {
    assert edges[..i + 1] == edges[..i] + [edges[i]];
  }

  lemma {:induction false} LatchOne(base: map<Id, bool>, on: set<Id>, id: Id)
    requires id in base
    ensures Latch(base, on)[id := true] == Latch(base, on + {id})
  {
  }

  /** The entry-edge backstop: light the agent's edge into every node that only agents lead into
      and that has been reached. */
  method Backstop(t: Terrain, maps: FoldMaps)
    requires forall e :: e in t.edges ==> e.id in maps.edgeActive
    modifies maps`edgeActive
    ensures maps.edgeActive == Latch(old(maps.edgeActive), Arrivals(t, maps.nodeState))
  {
    var agents := AgentIds(t.nodes);
    if agents != {} {
      var inboundByDst := IndexByDst(t.edges);
      for i := 0 to |t.edges|
        invariant maps.edgeActive == Latch(old(maps.edgeActive),
          ArrivalIds(t.edges[..i], t.edges, agents, maps.nodeState))
      {
        var e := t.edges[i];
        ArrivalIdsStep(t.edges, i, agents, maps.nodeState);
        if e.src !in agents { continue; }
        if e.dst !in maps.nodeState || maps.nodeState[e.dst] == Defined { continue; }
        var inbound := if e.dst in inboundByDst then inboundByDst[e.dst] else [];
        assert forall x :: x in inbound <==> x in t.edges && x.dst == e.dst;
        if forall x | x in inbound :: x.src in agents {
          LatchOne(old(maps.edgeActive), ArrivalIds(t.edges[..i], t.edges, agents, maps.nodeState), e.id);
          maps.edgeActive := maps.edgeActive[e.id := true];
        }
      }
      assert t.edges[..|t.edges|] == t.edges;
    }
  }

  lemma {:induction false} LatchLatch(base: map<Id, bool>, a: set<Id>, b: set<Id>)
    ensures Latch(Latch(base, a), b) == Latch(base, a + b)
  {
  }

  method Emit(t: Terrain, nodeState: map<Id, NodeState>, groupDiscovered: map<Id, bool>, edgeActive: map<Id, bool>)
    returns (groups: seq<FoldedGroup>, nodes: seq<FoldedNode>, edges: seq<FoldedEdge>)
    requires forall n :: n in t.nodes ==> n.id in nodeState
    requires forall g :: g in t.groups ==> g.id in groupDiscovered
    requires forall e :: e in t.edges ==> e.id in edgeActive
    ensures forall p :: Shows(t, nodeState, groupDiscovered, edgeActive, FoldedTerrain(groups, nodes, edges, p))
  {
    nodes := seq(|t.nodes|, i requires 0 <= i < |t.nodes| => FoldedNode(t.nodes[i],
      if t.nodes[i].id in nodeState then nodeState[t.nodes[i].id] else t.nodes[i].state));
    groups := seq(|t.groups|, i requires 0 <= i < |t.groups| => FoldedGroup(t.groups[i],
      if t.groups[i].id in groupDiscovered then groupDiscovered[t.groups[i].id] else t.groups[i].discovered));
    edges := seq(|t.edges|, i requires 0 <= i < |t.edges| => FoldedEdge(t.edges[i],
      if t.edges[i].id in edgeActive then edgeActive[t.edges[i].id] else t.edges[i].active));
  }

  method PartitionPulse(t: Terrain, pulseIds: Option<set<Id>>) returns (pulse: Pulse)
    ensures pulse == Pulsed(t, pulseIds)
  {
    pulse := Pulse({}, {}, {});
    if pulseIds.Some? {
      var ids := pulseIds.value;
      var nodeIds := set n | n in t.nodes :: n.id;
      var groupIds := set g | g in t.groups :: g.id;
      var edgeIds := set e | e in t.edges :: e.id;
      var todo := ids;
      while todo != {}
        invariant todo <= ids
        invariant pulse.nodes == (ids - todo) * nodeIds
        invariant pulse.groups == (ids - todo) * groupIds
        invariant pulse.edges == (ids - todo) * edgeIds
        decreases todo
      {
        var id :| id in todo;
        todo := todo - {id};
        if id in nodeIds { pulse := pulse.(nodes := pulse.nodes + {id}); }
        if id in groupIds { pulse := pulse.(groups := pulse.groups + {id}); }
        if id in edgeIds { pulse := pulse.(edges := pulse.edges + {id}); }
      }
    }
  }

  method FoldTerrain(t: Terrain, k: int, pulseIds: Option<set<Id>>) returns (r: FoldedTerrain)
    ensures FoldsTo(t, k, r)
    ensures r.pulse == Pulsed(t, pulseIds)
  {
    var maps := LoadBase(t);
    ApplyPrefix(t.updates, k, maps);
    EdgeBaseKeys(t.edges);
    Backstop(t, maps);
    LatchLatch(EdgeBase(t.edges), Activated(Prefix(t.updates, k)), Arrivals(t, States(t, k)));
    NodeBaseKeys(t.nodes);
    GroupBaseKeys(t.groups);
    var groups, nodes, edges := Emit(t, maps.nodeState, maps.groupDiscovered, maps.edgeActive);
    var pulse := PartitionPulse(t, pulseIds);
    r := FoldedTerrain(groups, nodes, edges, pulse);
  }

  // ---------- Properties ----------

  /** `s` is the join of `base` and every state that `ups` offer to `id`. */
  ghost predicate IsJoin(base: NodeState, ups: seq<Update>, id: Id, s: NodeState) {
    && base.Rank() <= s.Rank()
    && (forall u :: u in ups && Offers(u, id) ==> u.state.value.Rank() <= s.Rank())
    && (s == base || exists u :: u in ups && Offers(u, id) && u.state.value == s)
  }

  lemma {:induction false} ClimbIsJoin(base: NodeState, ups: seq<Update>, id: Id)
    ensures IsJoin(base, ups, id, Climb(base, ups, id))
  {
    if ups != [] {
      var front, u := ups[..|ups| - 1], ups[|ups| - 1];
      ClimbIsJoin(base, front, id);
      assert ups == front + [u];
    }
  }

  /** Some update reveals the group. */
  ghost predicate Reveals(updates: seq<Update>, id: Id) {
    exists u :: u in updates && u.targetKind == GroupTarget && u.targetId == id && u.discovered
  }

  /** Some update activates the edge. */
  ghost predicate Activates(updates: seq<Update>, id: Id) {
    exists u :: u in updates && u.targetKind == EdgeTarget && u.targetId == id && u.active
  }

  /** An edge with this id arrives at fold point `k`. */
  ghost predicate ArrivesAt(t: Terrain, k: int, id: Id) {
    exists e :: e in t.edges && e.id == id && Arrival(t.edges, AgentIds(t.nodes), States(t, k), e)
  }

  lemma {:induction false} NodeClosedForm(t: Terrain, k: int, n: Node, f: FoldedNode)
    requires NodeShows(n, f, States(t, k))
    ensures n.id in NodeBase(t.nodes) && IsJoin(NodeBase(t.nodes)[n.id], Prefix(t.updates, k), n.id, f.state)
  {
    ClimbIsJoin(NodeBase(t.nodes)[n.id], Prefix(t.updates, k), n.id);
  }

  lemma {:induction false} GroupClosedForm(t: Terrain, k: int, g: Group, f: FoldedGroup)
    requires GroupShows(g, f, Shown(t, k))
    ensures g.id in GroupBase(t.groups) &&
      (f.discovered <==> GroupBase(t.groups)[g.id] || Reveals(Prefix(t.updates, k), g.id))
  {
  }

  lemma {:induction false} EdgeClosedForm(t: Terrain, k: int, e: Edge, f: FoldedEdge)
    requires EdgeShows(e, f, Lit(t, k))
    ensures e.id in EdgeBase(t.edges) && (f.active <==>
           (|| EdgeBase(t.edges)[e.id]
            || Activates(Prefix(t.updates, k), e.id)
            || ArrivesAt(t, k, e.id)))
  {
  }

  /** The closed form of the fold. A node holds the join of its base state and the offers in the
      prefix; a group is discovered iff its base or some update in the prefix says so; an edge is
      active iff its base or some update says so or some edge of its id is an arrival. */
  lemma {:induction false} FoldClosedForm(t: Terrain, k: int, f: FoldedTerrain)
    requires FoldsTo(t, k, f)
    ensures forall i :: 0 <= i < |t.nodes| ==>
      && t.nodes[i].id in NodeBase(t.nodes)
      && IsJoin(NodeBase(t.nodes)[t.nodes[i].id], Prefix(t.updates, k), t.nodes[i].id, f.nodes[i].state)
    ensures forall i :: 0 <= i < |t.groups| ==>
      && t.groups[i].id in GroupBase(t.groups)
      && (f.groups[i].discovered <==>
        GroupBase(t.groups)[t.groups[i].id] || Reveals(Prefix(t.updates, k), t.groups[i].id))
    ensures forall i :: 0 <= i < |t.edges| ==>
      && t.edges[i].id in EdgeBase(t.edges)
      && (f.edges[i].active <==>
           (|| EdgeBase(t.edges)[t.edges[i].id]
            || Activates(Prefix(t.updates, k), t.edges[i].id)
            || ArrivesAt(t, k, t.edges[i].id)))
  {
    forall i | 0 <= i < |t.nodes|
      ensures t.nodes[i].id in NodeBase(t.nodes) &&
        IsJoin(NodeBase(t.nodes)[t.nodes[i].id], Prefix(t.updates, k), t.nodes[i].id, f.nodes[i].state)
    {
      NodeClosedForm(t, k, t.nodes[i], f.nodes[i]);
    }
    forall i | 0 <= i < |t.groups|
      ensures t.groups[i].id in GroupBase(t.groups) && (f.groups[i].discovered <==>
        GroupBase(t.groups)[t.groups[i].id] || Reveals(Prefix(t.updates, k), t.groups[i].id))
    {
      GroupClosedForm(t, k, t.groups[i], f.groups[i]);
    }
    forall i | 0 <= i < |t.edges|
      ensures t.edges[i].id in EdgeBase(t.edges) && (f.edges[i].active <==>
           (|| EdgeBase(t.edges)[t.edges[i].id]
            || Activates(Prefix(t.updates, k), t.edges[i].id)
            || ArrivesAt(t, k, t.edges[i].id)))
    {
      EdgeClosedForm(t, k, t.edges[i], f.edges[i]);
    }
  }

  lemma {:induction false} ClimbIgnoresOrder(base: NodeState, a: seq<Update>, b: seq<Update>, id: Id)
    requires forall u :: u in a <==> u in b
    ensures Climb(base, a, id) == Climb(base, b, id)
  {
    ClimbIsJoin(base, a, id);
    ClimbIsJoin(base, b, id);
  }

  /** Permuting or duplicating updates inside the prefix changes nothing. */
  lemma {:induction false} FoldIgnoresOrder(t: Terrain, k: int, t': Terrain, k': int)
    requires t'.nodes == t.nodes && t'.groups == t.groups && t'.edges == t.edges
    requires forall u :: u in Prefix(t.updates, k) <==> u in Prefix(t'.updates, k')
    ensures States(t', k') == States(t, k) && Shown(t', k') == Shown(t, k) && Lit(t', k') == Lit(t, k)
    ensures forall f :: FoldsTo(t', k', f) <==> FoldsTo(t, k, f)
  {
    var a, b := Prefix(t.updates, k), Prefix(t'.updates, k');
    forall id | id in NodeBase(t.nodes)
      ensures Climb(NodeBase(t.nodes)[id], a, id) == Climb(NodeBase(t.nodes)[id], b, id)
    {
      ClimbIgnoresOrder(NodeBase(t.nodes)[id], a, b, id);
    }
    assert States(t, k) == States(t', k');
    assert Revealed(a) == Revealed(b) && Activated(a) == Activated(b);
  }

  /** `r` is the terrain whose base is `f`, the fold of `t` to `j`, and whose log is what `j` left out. */
  ghost predicate Rebased(t: Terrain, j: int, f: FoldedTerrain, r: Terrain) {
    && |r.nodes| == |f.nodes| && |r.groups| == |f.groups| && |r.edges| == |f.edges|
    && (forall i :: 0 <= i < |r.nodes| ==> r.nodes[i] == f.nodes[i].node.(state := f.nodes[i].state))
    && (forall i :: 0 <= i < |r.groups| ==> r.groups[i] == f.groups[i].group.(discovered := f.groups[i].discovered))
    && (forall i :: 0 <= i < |r.edges| ==> r.edges[i] == f.edges[i].edge.(active := f.edges[i].active))
    && r.updates == t.updates[|Prefix(t.updates, j)|..]
  }

  lemma {:induction false} RelabelNodes(nodes: seq<Node>, r: seq<Node>, m: map<Id, NodeState>)
    requires |r| == |nodes|
    requires forall i :: 0 <= i < |r| ==> nodes[i].id in m && r[i] == nodes[i].(state := m[nodes[i].id])
    ensures NodeBase(r).Keys == NodeBase(nodes).Keys
    ensures forall id :: id in NodeBase(r) ==> id in m && NodeBase(r)[id] == m[id]
  {
    if r != [] {
      RelabelNodes(nodes[..|r| - 1], r[..|r| - 1], m);
    }
  }

  lemma {:induction false} RelabelGroups(groups: seq<Group>, r: seq<Group>, m: map<Id, bool>)
    requires |r| == |groups|
    requires forall i :: 0 <= i < |r| ==> groups[i].id in m && r[i] == groups[i].(discovered := m[groups[i].id])
    ensures GroupBase(r).Keys == GroupBase(groups).Keys
    ensures forall id :: id in GroupBase(r) ==> id in m && GroupBase(r)[id] == m[id]
  {
    if r != [] {
      RelabelGroups(groups[..|r| - 1], r[..|r| - 1], m);
    }
  }

  lemma {:induction false} RelabelEdges(edges: seq<Edge>, r: seq<Edge>, m: map<Id, bool>)
    requires |r| == |edges|
    requires forall i :: 0 <= i < |r| ==> edges[i].id in m && r[i] == edges[i].(active := m[edges[i].id])
    ensures EdgeBase(r).Keys == EdgeBase(edges).Keys
    ensures forall id :: id in EdgeBase(r) ==> id in m && EdgeBase(r)[id] == m[id]
  {
    if r != [] {
      RelabelEdges(edges[..|r| - 1], r[..|r| - 1], m);
    }
  }

  lemma {:induction false} RebaseNodes(nodes: seq<Node>, f: seq<FoldedNode>, r: seq<Node>, m: map<Id, NodeState>)
    requires |f| == |nodes| == |r| && m.Keys == NodeBase(nodes).Keys
    requires forall i :: 0 <= i < |nodes| ==> NodeShows(nodes[i], f[i], m)
    requires forall i :: 0 <= i < |r| ==> r[i] == f[i].node.(state := f[i].state)
    ensures NodeBase(r) == m
  {
    RelabelNodes(nodes, r, m);
  }

  lemma {:induction false} RebaseGroups(groups: seq<Group>, f: seq<FoldedGroup>, r: seq<Group>, m: map<Id, bool>)
    requires |f| == |groups| == |r| && m.Keys == GroupBase(groups).Keys
    requires forall i :: 0 <= i < |groups| ==> GroupShows(groups[i], f[i], m)
    requires forall i :: 0 <= i < |r| ==> r[i] == f[i].group.(discovered := f[i].discovered)
    ensures GroupBase(r) == m
  {
    RelabelGroups(groups, r, m);
  }

  lemma {:induction false} RebaseEdges(edges: seq<Edge>, f: seq<FoldedEdge>, r: seq<Edge>, m: map<Id, bool>)
    requires |f| == |edges| == |r| && m.Keys == EdgeBase(edges).Keys
    requires forall i :: 0 <= i < |edges| ==> EdgeShows(edges[i], f[i], m)
    requires forall i :: 0 <= i < |r| ==> r[i] == f[i].edge.(active := f[i].active)
    ensures EdgeBase(r) == m
  {
    RelabelEdges(edges, r, m);
  }

  /** The maps of the rebased terrain are those of the fold at `j`. */
  lemma {:induction false} RebaseBases(t: Terrain, j: int, f: FoldedTerrain, r: Terrain)
    requires FoldsTo(t, j, f) && Rebased(t, j, f, r)
    ensures NodeBase(r.nodes) == States(t, j)
    ensures GroupBase(r.groups) == Shown(t, j)
    ensures EdgeBase(r.edges) == Lit(t, j)
  {
    RebaseNodes(t.nodes, f.nodes, r.nodes, States(t, j));
    RebaseGroups(t.groups, f.groups, r.groups, Shown(t, j));
    RebaseEdges(t.edges, f.edges, r.edges, Lit(t, j));
  }

  /** The part of the log that takes fold point `j` to fold point `k`. */
  function Between(t: Terrain, j: int, k: int): seq<Update> {
    Prefix(t.updates[|Prefix(t.updates, j)|..], k - |Prefix(t.updates, j)|)
  }

  lemma {:induction false} PrefixSplits(updates: seq<Update>, j: int, k: int)
    requires j <= k
    ensures var a := Prefix(updates, j);
      Prefix(updates, k) == a + Prefix(updates[|a|..], k - |a|)
  {
    var m, n := |Prefix(updates, j)|, |Prefix(updates, k)|;
    assert updates[..n] == updates[..m] + updates[m..n];
    assert updates[m..][..n - m] == updates[m..n];
  }

  /** What happens between two fold points only adds: no state falls back, and every arrival stays
      an arrival. */
  lemma {:induction false} StatesClimb(t: Terrain, j: int, k: int)
    requires j <= k
    ensures Prefix(t.updates, k) == Prefix(t.updates, j) + Between(t, j, k)
    ensures States(t, k) == NodesAfter(States(t, j), Between(t, j, k))
    ensures forall id :: id in States(t, j) ==> States(t, j)[id].Rank() <= States(t, k)[id].Rank()
    ensures Arrivals(t, States(t, j)) <= Arrivals(t, States(t, k))
  {
    var a, b := Prefix(t.updates, j), Between(t, j, k);
    PrefixSplits(t.updates, j, k);
    NodesAfterAppend(NodeBase(t.nodes), a, b);
    forall id | id in States(t, j) ensures States(t, j)[id].Rank() <= States(t, k)[id].Rank() {
      ClimbIsJoin(States(t, j)[id], b, id);
    }
    forall e | e in t.edges && Arrival(t.edges, AgentIds(t.nodes), States(t, j), e)
      ensures Arrival(t.edges, AgentIds(t.nodes), States(t, k), e)
    {
    }
  }

  ghost predicate SameFold(f: FoldedTerrain, g: FoldedTerrain) {
    && |f.nodes| == |g.nodes| && (forall i :: 0 <= i < |g.nodes| ==> f.nodes[i].state == g.nodes[i].state)
    && |f.groups| == |g.groups| &&
      (forall i :: 0 <= i < |g.groups| ==> f.groups[i].discovered == g.groups[i].discovered)
    && |f.edges| == |g.edges| && (forall i :: 0 <= i < |g.edges| ==> f.edges[i].active == g.edges[i].active)
  }

  ghost predicate SameShape(edges: seq<Edge>, r: seq<Edge>) {
    |edges| == |r| && forall k :: 0 <= k < |r| ==>
      r[k].id == edges[k].id && r[k].src == edges[k].src && r[k].dst == edges[k].dst
  }

  /** Same number of elements, with the same ids and the same wiring. */
  ghost predicate SameGraph(t: Terrain, r: Terrain) {
    && |t.nodes| == |r.nodes| && (forall i :: 0 <= i < |r.nodes| ==>
      r.nodes[i].id == t.nodes[i].id && r.nodes[i].kind == t.nodes[i].kind)
    && |t.groups| == |r.groups| && (forall i :: 0 <= i < |r.groups| ==> r.groups[i].id == t.groups[i].id)
    && SameShape(t.edges, r.edges)
  }

  lemma {:induction false} RebasedSameGraph(t: Terrain, states: map<Id, NodeState>, shown: map<Id, bool>,
      lit: map<Id, bool>, j: int, f: FoldedTerrain, r: Terrain)
    requires Shows(t, states, shown, lit, f) && Rebased(t, j, f, r)
    ensures SameGraph(t, r)
  {
    assert forall i :: 0 <= i < |t.nodes| ==> NodeShows(t.nodes[i], f.nodes[i], states);
    assert forall i :: 0 <= i < |t.groups| ==> GroupShows(t.groups[i], f.groups[i], shown);
    assert forall i :: 0 <= i < |t.edges| ==> EdgeShows(t.edges[i], f.edges[i], lit);
  }

  lemma {:induction false} SameMapsSameFold(t: Terrain, r: Terrain, states: map<Id, NodeState>, shown: map<Id, bool>,
      lit: map<Id, bool>, g: FoldedTerrain, h: FoldedTerrain)
    requires SameGraph(t, r)
    requires Shows(r, states, shown, lit, g) && Shows(t, states, shown, lit, h)
    ensures SameFold(g, h)
  {
    assert forall i :: 0 <= i < |t.nodes| ==>
      NodeShows(r.nodes[i], g.nodes[i], states) && NodeShows(t.nodes[i], h.nodes[i], states);
    assert forall i :: 0 <= i < |t.groups| ==>
      GroupShows(r.groups[i], g.groups[i], shown) && GroupShows(t.groups[i], h.groups[i], shown);
    assert forall i :: 0 <= i < |t.edges| ==>
      EdgeShows(r.edges[i], g.edges[i], lit) && EdgeShows(t.edges[i], h.edges[i], lit);
  }

  lemma {:induction false} ArrivalsOneWay(edges: seq<Edge>, r: seq<Edge>, agents: set<Id>, states: map<Id, NodeState>)
    requires SameShape(edges, r)
    ensures ArrivalIds(edges, edges, agents, states) <= ArrivalIds(r, r, agents, states)
  {
    forall id | id in ArrivalIds(edges, edges, agents, states) ensures id in ArrivalIds(r, r, agents, states) {
      var i :| 0 <= i < |edges| && edges[i].id == id && Arrival(edges, agents, states, edges[i]);
      forall x | x in r && x.dst == r[i].dst ensures x.src in agents {
        var k :| 0 <= k < |r| && r[k] == x;
        assert edges[k] in edges;
      }
      assert r[i] in r && Arrival(r, agents, states, r[i]);
    }
  }

  /** The backstop looks at the shape of the graph only, which rebasing keeps. */
  lemma {:induction false} RebaseArrivals(t: Terrain, r: Terrain, states: map<Id, NodeState>)
    requires SameGraph(t, r)
    ensures Arrivals(r, states) == Arrivals(t, states)
  {
    assert AgentIds(r.nodes) == AgentIds(t.nodes) by {
      forall n | n in t.nodes && n.kind == "agent" ensures n.id in AgentIds(r.nodes) {
        var i :| 0 <= i < |t.nodes| && t.nodes[i] == n;
        assert r.nodes[i] in r.nodes;
      }
    }
    ArrivalsOneWay(t.edges, r.edges, AgentIds(t.nodes), states);
    ArrivalsOneWay(r.edges, t.edges, AgentIds(t.nodes), states);
  }

  /** An edge lit by the backstop at the checkpoint would be lit at the end too. */
  lemma {:induction false} CheckpointEdges(base: map<Id, bool>, a: seq<Update>, b: seq<Update>, early: set<Id>,
      late: set<Id>)
    requires early <= late
    ensures Latch(Latch(base, Activated(a) + early), Activated(b) + late) == Latch(base, Activated(a + b) + late)
  {
    assert Activated(a + b) == Activated(a) + Activated(b);
  }

  lemma {:induction false} CheckpointLatches(t: Terrain, j: int, k: int)
    requires j <= k
    ensures Latch(Shown(t, j), Revealed(Between(t, j, k))) == Shown(t, k)
    ensures Latch(Lit(t, j), Activated(Between(t, j, k)) + Arrivals(t, States(t, k))) == Lit(t, k)
  {
    StatesClimb(t, j, k);
    LatchesAppend(GroupBase(t.groups), EdgeBase(t.edges), Prefix(t.updates, j), Between(t, j, k));
    CheckpointEdges(EdgeBase(t.edges), Prefix(t.updates, j), Between(t, j, k),
                    Arrivals(t, States(t, j)), Arrivals(t, States(t, k)));
  }

  lemma {:induction false} SamePrefix(t: Terrain, j: int, k: int, r: Terrain)
    requires r.updates == t.updates[|Prefix(t.updates, j)|..]
    ensures Prefix(r.updates, k - |Prefix(t.updates, j)|) == Between(t, j, k)
  {
  }

  lemma {:induction false} SameStates(t: Terrain, j: int, k: int)
    requires j <= k
    ensures NodesAfter(States(t, j), Between(t, j, k)) == States(t, k)
  {
    StatesClimb(t, j, k);
  }

  lemma {:induction false} SameMaps(t: Terrain, j: int, k: int, r: Terrain, m: int)
    requires Prefix(r.updates, m) == Between(t, j, k)
    requires NodeBase(r.nodes) == States(t, j) && NodesAfter(States(t, j), Between(t, j, k)) == States(t, k)
    requires GroupBase(r.groups) == Shown(t, j) && Latch(Shown(t, j), Revealed(Between(t, j, k))) == Shown(t, k)
    requires EdgeBase(r.edges) == Lit(t, j) && Arrivals(r, States(t, k)) == Arrivals(t, States(t, k))
    requires Latch(Lit(t, j), Activated(Between(t, j, k)) + Arrivals(t, States(t, k))) == Lit(t, k)
    ensures States(r, m) == States(t, k) && Shown(r, m) == Shown(t, k) && Lit(r, m) == Lit(t, k)
  {
  }

  lemma {:induction false} CheckpointMaps(t: Terrain, j: int, k: int, r: Terrain)
    requires j <= k && r.updates == t.updates[|Prefix(t.updates, j)|..]
    requires NodeBase(r.nodes) == States(t, j)
    requires GroupBase(r.groups) == Shown(t, j)
    requires EdgeBase(r.edges) == Lit(t, j)
    requires Arrivals(r, States(t, k)) == Arrivals(t, States(t, k))
    ensures States(r, k - |Prefix(t.updates, j)|) == States(t, k)
    ensures Shown(r, k - |Prefix(t.updates, j)|) == Shown(t, k)
    ensures Lit(r, k - |Prefix(t.updates, j)|) == Lit(t, k)
  {
    SamePrefix(t, j, k, r);
    SameStates(t, j, k);
    CheckpointLatches(t, j, k);
    SameMaps(t, j, k, r, k - |Prefix(t.updates, j)|);
  }

  /** Checkpoint law: folding the rest of the log onto the graph folded to `j` gives the graph folded
      to `k`, the entry-edge backstop included. */
  lemma {:induction false} Checkpoint(t: Terrain, j: int, k: int, f: FoldedTerrain, r: Terrain, g: FoldedTerrain,
      h: FoldedTerrain)
    requires j <= k
    requires FoldsTo(t, j, f) && Rebased(t, j, f, r)
    requires FoldsTo(r, k - |Prefix(t.updates, j)|, g) && FoldsTo(t, k, h)
    ensures SameFold(g, h)
  {
    RebasedSameGraph(t, States(t, j), Shown(t, j), Lit(t, j), j, f, r);
    RebaseBases(t, j, f, r);
    RebaseArrivals(t, r, States(t, k));
    CheckpointMaps(t, j, k, r);
    SameMapsSameFold(t, r, States(t, k), Shown(t, k), Lit(t, k), g, h);
  }

  /** Going forward in time, no node falls back, no group is hidden again and no edge goes dark. */
  lemma {:induction false} FoldMonotone(t: Terrain, j: int, k: int, f: FoldedTerrain, g: FoldedTerrain)
    requires j <= k && FoldsTo(t, j, f) && FoldsTo(t, k, g)
    ensures forall i :: 0 <= i < |t.nodes| ==> f.nodes[i].state.Rank() <= g.nodes[i].state.Rank()
    ensures forall i :: 0 <= i < |t.groups| ==> f.groups[i].discovered ==> g.groups[i].discovered
    ensures forall i :: 0 <= i < |t.edges| ==> f.edges[i].active ==> g.edges[i].active
  {
    StatesClimb(t, j, k);
    assert forall i :: 0 <= i < |t.nodes| ==>
      NodeShows(t.nodes[i], f.nodes[i], States(t, j)) && NodeShows(t.nodes[i], g.nodes[i], States(t, k));
    assert forall i :: 0 <= i < |t.groups| ==>
      GroupShows(t.groups[i], f.groups[i], Shown(t, j)) && GroupShows(t.groups[i], g.groups[i], Shown(t, k));
    assert forall i :: 0 <= i < |t.edges| ==>
      EdgeShows(t.edges[i], f.edges[i], Lit(t, j)) && EdgeShows(t.edges[i], g.edges[i], Lit(t, k));
  }

  /** Before the first update the nodes and groups are the base graph, but the backstop still runs:
      the edges equal the base exactly when every arrival was authored active. */
  lemma {:induction false} FoldOfNothing(t: Terrain, k: int)
    requires k < 0
    ensures States(t, k) == NodeBase(t.nodes) && Shown(t, k) == GroupBase(t.groups)
    ensures Lit(t, k) == EdgeBase(t.edges) <==>
      forall id :: id in Arrivals(t, NodeBase(t.nodes)) ==> id in EdgeBase(t.edges) && EdgeBase(t.edges)[id]
  {
    EdgeBaseKeys(t.edges);
    assert Prefix(t.updates, k) == [];
    assert States(t, k) == NodeBase(t.nodes);
    assert Activated([]) == {};
    if Lit(t, k) == EdgeBase(t.edges) {
      forall id | id in Arrivals(t, NodeBase(t.nodes)) ensures id in EdgeBase(t.edges) && EdgeBase(t.edges)[id] {
        assert Lit(t, k)[id];
      }
    }
  }
}
