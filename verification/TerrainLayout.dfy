/** Spatial layout of the terrain map (live-trace/terrain-layout.ts). Coordinates are rationals. */
module TerrainLayout {
  import opened Prelude
  import opened Sorting
  import opened TerrainFold

  const WIDTH := 760.0
  const PAD := 20.0
  const ZONE_GAP := 18.0
  const ZONE_HEADER := 26.0
  const PARENT_R := 16.0
  const PARENT_ROW := 22.0
  const BOTTOM_PAD := 30.0
  const ZONE_H := ZONE_HEADER + PARENT_ROW + PARENT_R + BOTTOM_PAD
  const BAND_W := WIDTH - 2.0 * PAD

  datatype Route = Route(id: Id, name: string)
  datatype Point = Point(x: real, y: real)

  /** Where a node is drawn, without its state. */
  datatype Spot = Spot(node: Node, at: Point, r: real, slotW: real, routes: Option<seq<Route>>)
  datatype Band = Band(group: Group, x: real, y: real, w: real, h: real)
  datatype Line = Line(edge: Edge, from: Point, to: Point)

  datatype LaidOutNode = LaidOutNode(fnode: FoldedNode, x: real, y: real, r: real, slotW: real,
    routes: Option<seq<Route>>)
  datatype LaidOutGroup = LaidOutGroup(fgroup: FoldedGroup, x: real, y: real, w: real, h: real)
  datatype LaidOutEdge = LaidOutEdge(fedge: FoldedEdge, x1: real, y1: real, x2: real, y2: real)
  datatype Layout = Layout(width: real, height: real, groups: seq<LaidOutGroup>, nodes: seq<LaidOutNode>,
    edges: seq<LaidOutEdge>)

  /** The part of an id before its first colon. */
  function EndpointParentId(id: Id): Id {
    if id == "" || id[0] == ':' then "" else [id[0]] + EndpointParentId(id[1..])
  }

  // ---------- The geometry, from the authored graph alone ----------

  predicate GroupFirst(a: Group, b: Group) {
    a.order <= b.order
  }

  function Ordered(groups: seq<Group>): seq<Group> {
    Sort(GroupFirst, groups)
  }

  function GroupIds(groups: seq<Group>): set<Id> {
    set g | g in groups :: g.id
  }

  /** Nodes of laid-out groups that are drawn as circles. */
  function IsDrawn(groups: set<Id>): Node -> bool {
    (n: Node) => n.group in groups && n.kind != "endpoint"
  }

  /** Nodes of laid-out groups that are collapsed onto their service. */
  function IsEndpoint(groups: set<Id>): Node -> bool {
    (n: Node) => n.group in groups && n.kind == "endpoint"
  }

  function IsMember(groups: set<Id>, g: Id): Node -> bool {
    (n: Node) => n.group in groups && n.kind != "endpoint" && n.group == g
  }

  function DrawnIds(nodes: seq<Node>, groups: set<Id>): set<Id> {
    set n | n in Filter(nodes, IsDrawn(groups)) :: n.id
  }

  /** The drawn nodes of group `g`, in order. */
  function Members(nodes: seq<Node>, groups: set<Id>, g: Id): seq<Node> {
    Filter(nodes, IsMember(groups, g))
  }

  /** The endpoint is collapsed onto the service `parent`, which is drawn. */
  predicate CollapsesOnto(drawn: set<Id>, endpoint: Id, parent: Id) {
    EndpointParentId(endpoint) == parent && parent in drawn
  }

  /** The routes of a service: the endpoints collapsed onto it, in order. */
  function Routes(drawn: set<Id>, endpoints: seq<Node>, parent: Id): seq<Route> {
    if endpoints == [] then []
    else
      var before := Routes(drawn, endpoints[..|endpoints| - 1], parent);
      var n := endpoints[|endpoints| - 1];
      if CollapsesOnto(drawn, n.id, parent) then before + [Route(n.id, n.name)] else before
  }

  function RoutesShown(nodes: seq<Node>, groups: set<Id>, parent: Id): Option<seq<Route>> {
    var routes := Routes(DrawnIds(nodes, groups), Filter(nodes, IsEndpoint(groups)), parent);
    if routes == [] then None else Some(routes)
  }

  /** The running `y`: the bands above, each with its gap. */
  function BandTop(i: nat): real {
    if i == 0 then PAD else BandTop(i - 1) + (ZONE_H + ZONE_GAP)
  }

  function BandOf(g: Group, i: nat): Band {
    Band(g, PAD, BandTop(i), BAND_W, ZONE_H)
  }

  function SlotW(n: nat): real {
    BAND_W / (if n == 0 then 1 else n) as real
  }

  /** The `i`-th of `n` members of the group in band `band`. */
  function SpotOf(nodes: seq<Node>, groups: set<Id>, member: Node, i: nat, n: nat, band: nat): Spot {
    Spot(member,
         Point(PAD + SlotW(n) * (i as real + 0.5), BandTop(band) + ZONE_HEADER + PARENT_ROW),
         PARENT_R, SlotW(n), RoutesShown(nodes, groups, member.id))
  }

  /** The spots of the first `i` members of band `band`. */
  function RowSpots(nodes: seq<Node>, groups: set<Id>, members: seq<Node>, i: nat, band: nat): seq<Spot>
    requires i <= |members|
  {
    if i == 0 then []
    else RowSpots(nodes, groups, members, i - 1, band) + [SpotOf(nodes, groups, members[i - 1], i - 1, |members|, band)]
  }

  /** The bands of the first `b` groups. */
  function Bands(ordered: seq<Group>, b: nat): seq<Band>
    requires b <= |ordered|
  {
    if b == 0 then [] else Bands(ordered, b - 1) + [BandOf(ordered[b - 1], b - 1)]
  }

  /** The spots in the bands of the first `b` groups. */
  function Spots(nodes: seq<Node>, groups: set<Id>, ordered: seq<Group>, b: nat): seq<Spot>
    requires b <= |ordered|
  {
    if b == 0 then []
    else
      var members := Members(nodes, groups, ordered[b - 1].id);
      Spots(nodes, groups, ordered, b - 1) + RowSpots(nodes, groups, members, |members|, b - 1)
  }

  /** `nodePos.get(id)`: the last spot with this id. */
  function SpotAt(spots: seq<Spot>, id: Id): Option<Point> {
    if spots == [] then None
    else if spots[|spots| - 1].node.id == id then Some(spots[|spots| - 1].at)
    else SpotAt(spots[..|spots| - 1], id)
  }

  function BandAt(bands: seq<Band>, id: Id): Option<Point> {
    if bands == [] then None
    else
      var b := bands[|bands| - 1];
      if b.group.id == id then Some(Point(b.x + b.w / 2.0, b.y)) else BandAt(bands[..|bands| - 1], id)
  }

  /** The keys of `endpointToParent`. */
  function Collapsed(nodes: seq<Node>, groups: set<Id>): set<Id> {
    set n | n in Filter(nodes, IsEndpoint(groups)) && EndpointParentId(n.id) in DrawnIds(nodes, groups) :: n.id
  }

  /** What an edge end resolves to: a drawn node, the service of a collapsed endpoint, or a band. */
  function At(spots: seq<Spot>, bands: seq<Band>, collapsed: set<Id>, id: Id): Option<Point> {
    var service := if id in collapsed && EndpointParentId(id) != "" then SpotAt(spots, EndpointParentId(id)) else None;
    if SpotAt(spots, id).Some? then SpotAt(spots, id)
    else if service.Some? then service
    else BandAt(bands, id)
  }

  function Lines(spots: seq<Spot>, bands: seq<Band>, collapsed: set<Id>, edges: seq<Edge>): seq<Line> {
    if edges == [] then []
    else
      var before := Lines(spots, bands, collapsed, edges[..|edges| - 1]);
      var e := edges[|edges| - 1];
      var a, b := At(spots, bands, collapsed, e.src), At(spots, bands, collapsed, e.dst);
      if a.None? || b.None? || a == b then before else before + [Line(e, a.value, b.value)]
  }

  /** The authored graph under a folded one. */
  function NodeOf(): FoldedNode -> Node { (n: FoldedNode) => n.node }
  function GroupOf(): FoldedGroup -> Group { (g: FoldedGroup) => g.group }
  function EdgeOf(): FoldedEdge -> Edge { (e: FoldedEdge) => e.edge }

  function NodesOf(f: FoldedTerrain): seq<Node> { Map(f.nodes, NodeOf()) }
  function GroupsOf(f: FoldedTerrain): seq<Group> { Map(f.groups, GroupOf()) }
  function EdgesOf(f: FoldedTerrain): seq<Edge> { Map(f.edges, EdgeOf()) }

  datatype Geometry = Geometry(height: real, bands: seq<Band>, spots: seq<Spot>, lines: seq<Line>)

  function GeometryOf(nodes: seq<Node>, groups: seq<Group>, edges: seq<Edge>): Geometry {
    var ids := GroupIds(groups);
    var ordered := Ordered(groups);
    var bands := Bands(ordered, |ordered|);
    var spots := Spots(nodes, ids, ordered, |ordered|);
    Geometry(
      if ordered == [] then PAD * 2.0 else BandTop(|ordered|) - ZONE_GAP + PAD,
      bands, spots, Lines(spots, bands, Collapsed(nodes, ids), edges))
  }

  // ---------- States shown ----------

  /** The highest state among the endpoints collapsed onto `parent`, if there are any. */
  function CollapsedState(drawn: set<Id>, endpoints: seq<FoldedNode>, parent: Id): Option<NodeState> {
    if endpoints == [] then None
    else
      var before := CollapsedState(drawn, endpoints[..|endpoints| - 1], parent);
      var n := endpoints[|endpoints| - 1];
      if CollapsesOnto(drawn, n.node.id, parent) then Some(Higher(before.GetOr(Defined), n.state)) else before
  }

  function OfEndpoint(groups: set<Id>): FoldedNode -> bool {
    (n: FoldedNode) => n.node.group in groups && n.node.kind == "endpoint"
  }

  function EffectiveState(f: FoldedTerrain, n: FoldedNode): NodeState {
    var ids := GroupIds(GroupsOf(f));
    match CollapsedState(DrawnIds(NodesOf(f), ids), Filter(f.nodes, OfEndpoint(ids)), n.node.id)
    case None => n.state
    case Some(s) => Higher(n.state, s)
  }

  // ---------- The layout as the source computes it ----------

  predicate NodeAt(f: FoldedTerrain, laid: LaidOutNode, spot: Spot) {
    && laid.fnode.node == spot.node
    && Point(laid.x, laid.y) == spot.at && laid.r == spot.r && laid.slotW == spot.slotW && laid.routes == spot.routes
    && exists n :: n in f.nodes && n.node == spot.node && laid.fnode.state == EffectiveState(f, n)
  }

  predicate GroupAt(f: FoldedTerrain, laid: LaidOutGroup, band: Band) {
    && laid.fgroup in f.groups && laid.fgroup.group == band.group
    && laid.x == band.x && laid.y == band.y && laid.w == band.w && laid.h == band.h
  }

  predicate EdgeAt(f: FoldedTerrain, laid: LaidOutEdge, line: Line) {
    && laid.fedge in f.edges && laid.fedge.edge == line.edge
    && Point(laid.x1, laid.y1) == line.from && Point(laid.x2, laid.y2) == line.to
  }

  /** `r` draws `f`: every coordinate is that of the geometry of the authored graph, every state that
      of the fold. */
  ghost predicate LaysOut(f: FoldedTerrain, r: Layout) {
    var g := GeometryOf(NodesOf(f), GroupsOf(f), EdgesOf(f));
    && r.width == WIDTH && r.height == g.height
    && |r.groups| == |g.bands| && (forall i :: 0 <= i < |g.bands| ==> GroupAt(f, r.groups[i], g.bands[i]))
    && |r.nodes| == |g.spots| && (forall i :: 0 <= i < |g.spots| ==> NodeAt(f, r.nodes[i], g.spots[i]))
    && |r.edges| == |g.lines| && (forall i :: 0 <= i < |g.lines| ==> EdgeAt(f, r.edges[i], g.lines[i]))
  }

  predicate FoldedFirst(a: FoldedGroup, b: FoldedGroup) {
    a.group.order <= b.group.order
  }

  function InGroups(groups: set<Id>): FoldedNode -> bool { (n: FoldedNode) => n.node.group in groups }
  function Endpoint(): FoldedNode -> bool { (n: FoldedNode) => n.node.kind == "endpoint" }
  function NotEndpoint(): FoldedNode -> bool { (n: FoldedNode) => n.node.kind != "endpoint" }
  function OfGroup(g: Id): FoldedNode -> bool { (n: FoldedNode) => n.node.group == g }

  /** The source filters the folded nodes in steps; the authored nodes under the results are those of
      the geometry. */
  lemma {:induction false} EndpointsAgree(fs: seq<FoldedNode>, groups: set<Id>)
    ensures Filter(Filter(fs, InGroups(groups)), Endpoint()) == Filter(fs, OfEndpoint(groups))
    ensures Map(Filter(fs, OfEndpoint(groups)), NodeOf()) == Filter(Map(fs, NodeOf()), IsEndpoint(groups))
  {
    FilterFilter(fs, InGroups(groups), Endpoint(), OfEndpoint(groups));
    FilterMap(fs, NodeOf(), IsEndpoint(groups), OfEndpoint(groups));
  }

  function OfDrawn(groups: set<Id>): FoldedNode -> bool {
    (n: FoldedNode) => n.node.group in groups && n.node.kind != "endpoint"
  }

  function OfMember(groups: set<Id>, g: Id): FoldedNode -> bool {
    (n: FoldedNode) => n.node.group in groups && n.node.kind != "endpoint" && n.node.group == g
  }

  lemma {:induction false} DrawnAgree(fs: seq<FoldedNode>, groups: set<Id>)
    ensures Map(Filter(Filter(fs, InGroups(groups)), NotEndpoint()), NodeOf()) ==
      Filter(Map(fs, NodeOf()), IsDrawn(groups))
  {
    FilterFilter(fs, InGroups(groups), NotEndpoint(), OfDrawn(groups));
    FilterMap(fs, NodeOf(), IsDrawn(groups), OfDrawn(groups));
  }

  lemma {:induction false} MembersAgree(fs: seq<FoldedNode>, groups: set<Id>, g: Id)
    ensures Filter(Filter(Filter(fs, InGroups(groups)), NotEndpoint()), OfGroup(g)) == Filter(fs, OfMember(groups, g))
    ensures Map(Filter(fs, OfMember(groups, g)), NodeOf()) == Members(Map(fs, NodeOf()), groups, g)
  {
    FilterFilter(fs, InGroups(groups), NotEndpoint(), OfDrawn(groups));
    FilterFilter(fs, OfDrawn(groups), OfGroup(g), OfMember(groups, g));
    FilterMap(fs, NodeOf(), IsMember(groups, g), OfMember(groups, g));
  }

  ghost predicate HoldsRoutesOf(m: map<Id, seq<Route>>, drawn: set<Id>, endpoints: seq<Node>, p: Id) {
    if p in m then m[p] != [] && m[p] == Routes(drawn, endpoints, p) else Routes(drawn, endpoints, p) == []
  }

  /** The map holds the routes of every service that has any. */
  ghost predicate HoldsRoutes(m: map<Id, seq<Route>>, drawn: set<Id>, endpoints: seq<Node>) {
    forall p :: HoldsRoutesOf(m, drawn, endpoints, p)
  }

  lemma {:induction false} HoldsRoutesAdd(m: map<Id, seq<Route>>, drawn: set<Id>, endpoints: seq<Node>, n: Node)
    requires HoldsRoutes(m, drawn, endpoints)
    ensures var parent := EndpointParentId(n.id);
      HoldsRoutes(
        if parent in drawn then m[parent := (if parent in m then m[parent] else []) + [Route(n.id, n.name)]] else m,
        drawn, endpoints + [n])
  {
    var parent := EndpointParentId(n.id);
    var m' := if parent in drawn then m[parent := (if parent in m then m[parent] else []) + [Route(n.id, n.name)]]
      else m;
    forall p ensures HoldsRoutesOf(m', drawn, endpoints + [n], p) {
      assert HoldsRoutesOf(m, drawn, endpoints, p);
      assert (endpoints + [n])[..|endpoints|] == endpoints;
    }
  }

  ghost predicate HoldsStateOf(m: map<Id, NodeState>, drawn: set<Id>, endpoints: seq<FoldedNode>, p: Id) {
    CollapsedState(drawn, endpoints, p) == if p in m then Some(m[p]) else None
  }

  /** The map holds the collapsed state of every service that has one. */
  ghost predicate HoldsStates(m: map<Id, NodeState>, drawn: set<Id>, endpoints: seq<FoldedNode>) {
    forall p :: HoldsStateOf(m, drawn, endpoints, p)
  }

  lemma {:induction false} HoldsStatesAdd(m: map<Id, NodeState>, drawn: set<Id>, endpoints: seq<FoldedNode>,
      n: FoldedNode)
    requires HoldsStates(m, drawn, endpoints)
    ensures var parent := EndpointParentId(n.node.id);
      HoldsStates(
        if parent in drawn then m[parent := Higher(if parent in m then m[parent] else Defined, n.state)] else m,
        drawn, endpoints + [n])
  {
    var parent := EndpointParentId(n.node.id);
    var m' := if parent in drawn then m[parent := Higher(if parent in m then m[parent] else Defined, n.state)] else m;
    forall p ensures HoldsStateOf(m', drawn, endpoints + [n], p) {
      assert HoldsStateOf(m, drawn, endpoints, p);
      assert (endpoints + [n])[..|endpoints|] == endpoints;
    }
  }

  /** Each endpoint whose service is drawn adds a route and its state to that service. */
  method CollapseEndpoints(endpointNodes: seq<FoldedNode>, drawnNodeIds: set<Id>)
    returns (routesByParent: map<Id, seq<Route>>, endpointToParent: map<Id, Id>, stateByParent: map<Id, NodeState>)
    ensures HoldsRoutes(routesByParent, drawnNodeIds, Map(endpointNodes, NodeOf()))
    ensures HoldsStates(stateByParent, drawnNodeIds, endpointNodes)
    ensures endpointToParent.Keys == set n | n in endpointNodes && EndpointParentId(n.node.id) in drawnNodeIds ::
      n.node.id
    ensures forall id :: id in endpointToParent ==> endpointToParent[id] == EndpointParentId(id)
  {
    routesByParent, endpointToParent, stateByParent := map[], map[], map[];
    for i := 0 to |endpointNodes|
      invariant HoldsRoutes(routesByParent, drawnNodeIds, Map(endpointNodes[..i], NodeOf()))
      invariant HoldsStates(stateByParent, drawnNodeIds, endpointNodes[..i])
      invariant endpointToParent.Keys == set n | n in endpointNodes[..i] &&
        EndpointParentId(n.node.id) in drawnNodeIds :: n.node.id
      invariant forall id :: id in endpointToParent ==> endpointToParent[id] == EndpointParentId(id)
    {
      var fn := endpointNodes[i];
      assert endpointNodes[..i + 1] == endpointNodes[..i] + [fn];
      HoldsRoutesAdd(routesByParent, drawnNodeIds, Map(endpointNodes[..i], NodeOf()), fn.node);
      assert Map(endpointNodes[..i + 1], NodeOf()) == Map(endpointNodes[..i], NodeOf()) + [fn.node];
      HoldsStatesAdd(stateByParent, drawnNodeIds, endpointNodes[..i], fn);
      var parentId := EndpointParentId(fn.node.id);
      if parentId !in drawnNodeIds { continue; }
      endpointToParent := endpointToParent[fn.node.id := parentId];
      var list := if parentId in routesByParent then routesByParent[parentId] else [];
      routesByParent := routesByParent[parentId := list + [Route(fn.node.id, fn.node.name)]];
      stateByParent := stateByParent[parentId :=
        Higher(if parentId in stateByParent then stateByParent[parentId] else Defined, fn.state)];
    }
    assert endpointNodes[..|endpointNodes|] == endpointNodes;
  }

  /** The maps that the endpoint pass left behind, for the folded terrain `f`. */
  ghost predicate HoldsServices(f: FoldedTerrain, routesByParent: map<Id, seq<Route>>,
      stateByParent: map<Id, NodeState>) {
    var ids := GroupIds(GroupsOf(f));
    && HoldsRoutes(routesByParent, DrawnIds(NodesOf(f), ids), Filter(NodesOf(f), IsEndpoint(ids)))
    && HoldsStates(stateByParent, DrawnIds(NodesOf(f), ids), Filter(f.nodes, OfEndpoint(ids)))
  }

  /** One member of a band. */
  function Laid(fnode: FoldedNode, i: nat, n: nat, y: real, routesByParent: map<Id, seq<Route>>,
      stateByParent: map<Id, NodeState>): LaidOutNode {
    var id := fnode.node.id;
    var state := if id in stateByParent then Higher(fnode.state, stateByParent[id]) else fnode.state;
    LaidOutNode(fnode.(state := state),
                PAD + SlotW(n) * (i as real + 0.5), y + ZONE_HEADER + PARENT_ROW, PARENT_R, SlotW(n),
                if id in routesByParent then Some(routesByParent[id]) else None)
  }

  lemma {:induction false} LaidIsAt(f: FoldedTerrain, fnode: FoldedNode, i: nat, n: nat, band: nat,
      routesByParent: map<Id, seq<Route>>, stateByParent: map<Id, NodeState>)
    requires HoldsServices(f, routesByParent, stateByParent) && fnode in f.nodes
    ensures NodeAt(f, Laid(fnode, i, n, BandTop(band), routesByParent, stateByParent),
                   SpotOf(NodesOf(f), GroupIds(GroupsOf(f)), fnode.node, i, n, band))
  {
    var ids := GroupIds(GroupsOf(f));
    assert HoldsRoutesOf(routesByParent, DrawnIds(NodesOf(f), ids), Filter(NodesOf(f), IsEndpoint(ids)), fnode.node.id);
    assert HoldsStateOf(stateByParent, DrawnIds(NodesOf(f), ids), Filter(f.nodes, OfEndpoint(ids)), fnode.node.id);
  }

  ghost predicate NodesAt(f: FoldedTerrain, laid: seq<LaidOutNode>, spots: seq<Spot>) {
    |laid| == |spots| && forall i :: 0 <= i < |spots| ==> NodeAt(f, laid[i], spots[i])
  }

  ghost predicate HoldsSpotOf(nodePos: map<Id, LaidOutNode>, spots: seq<Spot>, id: Id) {
    SpotAt(spots, id) == if id in nodePos then Some(Point(nodePos[id].x, nodePos[id].y)) else None
  }

  /** `nodePos` finds the last spot of every id. */
  ghost predicate HoldsSpots(nodePos: map<Id, LaidOutNode>, spots: seq<Spot>) {
    forall id :: HoldsSpotOf(nodePos, spots, id)
  }

  lemma {:induction false} HoldsSpotsAdd(nodePos: map<Id, LaidOutNode>, spots: seq<Spot>, laid: LaidOutNode, spot: Spot)
    requires HoldsSpots(nodePos, spots) && Point(laid.x, laid.y) == spot.at
    ensures HoldsSpots(nodePos[spot.node.id := laid], spots + [spot])
  {
    var after, longer := nodePos[spot.node.id := laid], spots + [spot];
    assert longer[..|spots|] == spots;
    forall id ensures HoldsSpotOf(after, longer, id) {
      assert HoldsSpotOf(nodePos, spots, id);
    }
  }

  function PosAfter(nodePos: map<Id, LaidOutNode>, row: seq<LaidOutNode>): map<Id, LaidOutNode> {
    if row == [] then nodePos
    else PosAfter(nodePos, row[..|row| - 1])[row[|row| - 1].fnode.node.id := row[|row| - 1]]
  }

  /** Place the members of one band, evenly across it. */
  method LayRow(members: seq<FoldedNode>, y: real, routesByParent: map<Id, seq<Route>>,
      stateByParent: map<Id, NodeState>, nodePos0: map<Id, LaidOutNode>)
    returns (row: seq<LaidOutNode>, nodePos: map<Id, LaidOutNode>)
    ensures |row| == |members|
    ensures forall i :: 0 <= i < |row| ==> row[i] == Laid(members[i], i, |members|, y, routesByParent, stateByParent)
    ensures nodePos == PosAfter(nodePos0, row)
  {
    row, nodePos := [], nodePos0;
    for i := 0 to |members|
      invariant |row| == i
      invariant forall k :: 0 <= k < i ==> row[k] == Laid(members[k], k, |members|, y, routesByParent, stateByParent)
      invariant nodePos == PosAfter(nodePos0, row)
    {
      var laid := Laid(members[i], i, |members|, y, routesByParent, stateByParent);
      assert (row + [laid])[..|row|] == row;
      row := row + [laid];
      nodePos := nodePos[members[i].node.id := laid];
    }
  }

  lemma {:induction false} RowSpotsAt(nodes: seq<Node>, groups: set<Id>, members: seq<Node>, n: nat, band: nat)
    requires n <= |members|
    ensures |RowSpots(nodes, groups, members, n, band)| == n
    ensures forall i :: 0 <= i < n ==>
      RowSpots(nodes, groups, members, n, band)[i] == SpotOf(nodes, groups, members[i], i, |members|, band)
  {
    if n > 0 {
      RowSpotsAt(nodes, groups, members, n - 1, band);
    }
  }

  /** A row that `LayRow` returns is drawn at the spots of its members. */
  lemma {:induction false} RowIsAt(f: FoldedTerrain, members: seq<FoldedNode>, band: nat, row: seq<LaidOutNode>,
      routesByParent: map<Id, seq<Route>>, stateByParent: map<Id, NodeState>)
    requires HoldsServices(f, routesByParent, stateByParent)
    requires forall n :: n in members ==> n in f.nodes
    requires |row| == |members|
    requires forall i :: 0 <= i < |row| ==>
      row[i] == Laid(members[i], i, |members|, BandTop(band), routesByParent, stateByParent)
    ensures NodesAt(f, row, RowSpots(NodesOf(f), GroupIds(GroupsOf(f)), Map(members, NodeOf()), |members|, band))
  {
    RowSpotsAt(NodesOf(f), GroupIds(GroupsOf(f)), Map(members, NodeOf()), |members|, band);
    forall i | 0 <= i < |row|
      ensures NodeAt(f, row[i], SpotOf(NodesOf(f), GroupIds(GroupsOf(f)), members[i].node, i, |members|, band))
    {
      LaidIsAt(f, members[i], i, |members|, band, routesByParent, stateByParent);
    }
  }

  lemma {:induction false} NodesAtAppend(f: FoldedTerrain, a: seq<LaidOutNode>, sa: seq<Spot>, b: seq<LaidOutNode>,
      sb: seq<Spot>)
    requires NodesAt(f, a, sa) && NodesAt(f, b, sb)
    ensures NodesAt(f, a + b, sa + sb)
  {
  }

  lemma {:induction false} HoldsSpotsRow(f: FoldedTerrain, nodePos: map<Id, LaidOutNode>, spots: seq<Spot>,
      row: seq<LaidOutNode>, added: seq<Spot>)
    requires HoldsSpots(nodePos, spots) && NodesAt(f, row, added)
    ensures HoldsSpots(PosAfter(nodePos, row), spots + added)
  {
    if row == [] {
      assert spots + added == spots;
    } else {
      var n := |row| - 1;
      assert NodeAt(f, row[n], added[n]);
      HoldsSpotsRow(f, nodePos, spots, row[..n], added[..n]);
      HoldsSpotsAdd(PosAfter(nodePos, row[..n]), spots + added[..n], row[n], added[n]);
      assert spots + added == spots + added[..n] + [added[n]];
    }
  }

  ghost predicate GroupsAt(f: FoldedTerrain, laid: seq<LaidOutGroup>, bands: seq<Band>) {
    |laid| == |bands| && forall i :: 0 <= i < |bands| ==> GroupAt(f, laid[i], bands[i])
  }

  ghost predicate HoldsBandOf(groupBand: map<Id, LaidOutGroup>, bands: seq<Band>, id: Id) {
    BandAt(bands, id) == if id in groupBand
      then Some(Point(groupBand[id].x + groupBand[id].w / 2.0, groupBand[id].y)) else None
  }

  ghost predicate HoldsBands(groupBand: map<Id, LaidOutGroup>, bands: seq<Band>) {
    forall id :: HoldsBandOf(groupBand, bands, id)
  }

  lemma {:induction false} HoldsBandsAdd(f: FoldedTerrain, groupBand: map<Id, LaidOutGroup>, bands: seq<Band>,
      laid: LaidOutGroup, band: Band)
    requires HoldsBands(groupBand, bands) && GroupAt(f, laid, band)
    ensures HoldsBands(groupBand[band.group.id := laid], bands + [band])
  {
    var after, longer := groupBand[band.group.id := laid], bands + [band];
    assert longer[..|bands|] == bands;
    forall id ensures HoldsBandOf(after, longer, id) {
      assert HoldsBandOf(groupBand, bands, id);
    }
  }

  lemma {:induction false} OrderAgrees(f: FoldedTerrain)
    ensures Map(Sort(FoldedFirst, f.groups), GroupOf()) == Ordered(GroupsOf(f))
    ensures forall g :: g in Sort(FoldedFirst, f.groups) <==> g in f.groups
  {
    SortNatural(FoldedFirst, GroupFirst, GroupOf(), f.groups);
    SortMembers(FoldedFirst, f.groups);
  }

  /** The ids of the laid-out groups, whatever their order. */
  lemma {:induction false} GroupIdsAgree(f: FoldedTerrain, ordered: seq<FoldedGroup>)
    requires forall g :: g in ordered <==> g in f.groups
    ensures (set g | g in ordered :: g.group.id) == GroupIds(GroupsOf(f))
  {
    forall id | id in GroupIds(GroupsOf(f)) ensures exists g :: g in ordered && g.group.id == id {
      var i :| 0 <= i < |f.groups| && GroupsOf(f)[i].id == id;
      assert f.groups[i] in ordered;
    }
    forall g | g in f.groups ensures g.group.id in GroupIds(GroupsOf(f)) {
      var i :| 0 <= i < |f.groups| && f.groups[i] == g;
      assert GroupsOf(f)[i] in GroupsOf(f);
    }
  }

  lemma {:induction false} DrawnIdsAgree(f: FoldedTerrain, groups: set<Id>, drawn: seq<FoldedNode>)
    requires Map(drawn, NodeOf()) == Filter(NodesOf(f), IsDrawn(groups))
    ensures (set n | n in drawn :: n.node.id) == DrawnIds(NodesOf(f), groups)
  {
    var under := Filter(NodesOf(f), IsDrawn(groups));
    forall n | n in drawn ensures n.node in under {
      var i :| 0 <= i < |drawn| && drawn[i] == n;
      assert under[i] == n.node;
    }
    forall n | n in under ensures exists d :: d in drawn && d.node == n {
      var i :| 0 <= i < |under| && under[i] == n;
      assert drawn[i].node == n;
    }
  }

  lemma {:induction false} CollapsedAgree(f: FoldedTerrain, groups: set<Id>, endpoints: seq<FoldedNode>)
    requires Map(endpoints, NodeOf()) == Filter(NodesOf(f), IsEndpoint(groups))
    ensures (set n | n in endpoints && EndpointParentId(n.node.id) in DrawnIds(NodesOf(f), groups) :: n.node.id)
      == Collapsed(NodesOf(f), groups)
  {
    var under := Filter(NodesOf(f), IsEndpoint(groups));
    forall n | n in endpoints ensures n.node in under {
      var i :| 0 <= i < |endpoints| && endpoints[i] == n;
      assert under[i] == n.node;
    }
    forall n | n in under ensures exists d :: d in endpoints && d.node == n {
      var i :| 0 <= i < |under| && under[i] == n;
      assert endpoints[i].node == n;
    }
  }

  method CollapseServices(f: FoldedTerrain, groupIds: set<Id>, endpointNodes: seq<FoldedNode>,
      drawnNodes: seq<FoldedNode>)
    returns (routesByParent: map<Id, seq<Route>>, endpointToParent: map<Id, Id>, stateByParent: map<Id, NodeState>)
    requires groupIds == GroupIds(GroupsOf(f))
    requires endpointNodes == Filter(Filter(f.nodes, InGroups(groupIds)), Endpoint())
    requires drawnNodes == Filter(Filter(f.nodes, InGroups(groupIds)), NotEndpoint())
    ensures HoldsServices(f, routesByParent, stateByParent)
    ensures endpointToParent.Keys == Collapsed(NodesOf(f), groupIds)
    ensures forall id :: id in endpointToParent ==> endpointToParent[id] == EndpointParentId(id)
  {
    EndpointsAgree(f.nodes, groupIds);
    DrawnAgree(f.nodes, groupIds);
    var drawnNodeIds := set n | n in drawnNodes :: n.node.id;
    DrawnIdsAgree(f, groupIds, drawnNodes);
    CollapsedAgree(f, groupIds, endpointNodes);
    routesByParent, endpointToParent, stateByParent := CollapseEndpoints(endpointNodes, drawnNodeIds);
  }

  /** Order the groups, sort out what is drawn, and collapse the endpoints. */
  method Prepare(f: FoldedTerrain)
    returns (orderedGroups: seq<FoldedGroup>, drawnNodes: seq<FoldedNode>, routesByParent: map<Id, seq<Route>>,
      endpointToParent: map<Id, Id>, stateByParent: map<Id, NodeState>)
    ensures Map(orderedGroups, GroupOf()) == Ordered(GroupsOf(f))
    ensures forall g :: g in orderedGroups ==> g in f.groups
    ensures drawnNodes == Filter(Filter(f.nodes, InGroups(GroupIds(GroupsOf(f)))), NotEndpoint())
    ensures HoldsServices(f, routesByParent, stateByParent)
    ensures endpointToParent.Keys == Collapsed(NodesOf(f), GroupIds(GroupsOf(f)))
    ensures forall id :: id in endpointToParent ==> endpointToParent[id] == EndpointParentId(id)
  {
    orderedGroups := Sort(FoldedFirst, f.groups);
    OrderAgrees(f);
    GroupIdsAgree(f, orderedGroups);
    var groupIds := set g | g in orderedGroups :: g.group.id;
    var allNodes := Filter(f.nodes, InGroups(groupIds));
    drawnNodes := Filter(allNodes, NotEndpoint());
    routesByParent, endpointToParent, stateByParent :=
      CollapseServices(f, groupIds, Filter(allNodes, Endpoint()), drawnNodes);
  }

  ghost predicate DrawsMember(f: FoldedTerrain, drawn: seq<FoldedNode>, g: Id) {
    var members := Filter(drawn, OfGroup(g));
    && Map(members, NodeOf()) == Members(NodesOf(f), GroupIds(GroupsOf(f)), g)
    && forall n :: n in members ==> n in f.nodes
  }

  /** The drawn nodes of each group are its members. */
  ghost predicate DrawsMembers(f: FoldedTerrain, drawn: seq<FoldedNode>) {
    forall g :: DrawsMember(f, drawn, g)
  }

  lemma {:induction false} DrawnDraw(f: FoldedTerrain, drawn: seq<FoldedNode>)
    requires drawn == Filter(Filter(f.nodes, InGroups(GroupIds(GroupsOf(f)))), NotEndpoint())
    ensures DrawsMembers(f, drawn)
  {
    forall g ensures DrawsMember(f, drawn, g) {
      MembersAgree(f.nodes, GroupIds(GroupsOf(f)), g);
    }
  }

  /** The first `b` bands and their members are placed, and the position maps know them. */
  ghost predicate BandsLaid(f: FoldedTerrain, ordered: seq<Group>, b: nat, laidGroups: seq<LaidOutGroup>,
      groupBand: map<Id, LaidOutGroup>, laidNodes: seq<LaidOutNode>, nodePos: map<Id, LaidOutNode>)
    requires b <= |ordered|
  {
    && GroupsAt(f, laidGroups, Bands(ordered, b))
    && HoldsBands(groupBand, Bands(ordered, b))
    && NodesAt(f, laidNodes, Spots(NodesOf(f), GroupIds(GroupsOf(f)), ordered, b))
    && HoldsSpots(nodePos, Spots(NodesOf(f), GroupIds(GroupsOf(f)), ordered, b))
  }

  lemma {:induction false} BandsLaidAdd(f: FoldedTerrain, ordered: seq<Group>, b: nat, laidGroups: seq<LaidOutGroup>,
      groupBand: map<Id, LaidOutGroup>, laidNodes: seq<LaidOutNode>, nodePos: map<Id, LaidOutNode>,
      band: LaidOutGroup, row: seq<LaidOutNode>)
    requires b < |ordered| && BandsLaid(f, ordered, b, laidGroups, groupBand, laidNodes, nodePos)
    requires GroupAt(f, band, BandOf(ordered[b], b))
    requires var members := Members(NodesOf(f), GroupIds(GroupsOf(f)), ordered[b].id);
      NodesAt(f, row, RowSpots(NodesOf(f), GroupIds(GroupsOf(f)), members, |members|, b))
    ensures BandsLaid(f, ordered, b + 1, laidGroups + [band], groupBand[ordered[b].id := band], laidNodes + row,
      PosAfter(nodePos, row))
  {
    var ids := GroupIds(GroupsOf(f));
    var members := Members(NodesOf(f), ids, ordered[b].id);
    var spots, added := Spots(NodesOf(f), ids, ordered, b), RowSpots(NodesOf(f), ids, members, |members|, b);
    HoldsBandsAdd(f, groupBand, Bands(ordered, b), band, BandOf(ordered[b], b));
    NodesAtAppend(f, laidNodes, spots, row, added);
    HoldsSpotsRow(f, nodePos, spots, row, added);
  }

  /** One band and its members. */
  method LayBand(f: FoldedTerrain, fgroup: FoldedGroup, drawnNodes: seq<FoldedNode>, y: real,
      ghost ordered: seq<Group>, ghost b: nat, routesByParent: map<Id, seq<Route>>, stateByParent: map<Id, NodeState>,
      laidGroups0: seq<LaidOutGroup>, laidNodes0: seq<LaidOutNode>, nodePos0: map<Id, LaidOutNode>,
      groupBand0: map<Id, LaidOutGroup>)
    returns (laidGroups: seq<LaidOutGroup>, laidNodes: seq<LaidOutNode>, nodePos: map<Id, LaidOutNode>,
      groupBand: map<Id, LaidOutGroup>)
    requires b < |ordered| && ordered[b] == fgroup.group && fgroup in f.groups && y == BandTop(b)
    requires DrawsMembers(f, drawnNodes) && HoldsServices(f, routesByParent, stateByParent)
    requires BandsLaid(f, ordered, b, laidGroups0, groupBand0, laidNodes0, nodePos0)
    ensures BandsLaid(f, ordered, b + 1, laidGroups, groupBand, laidNodes, nodePos)
  {
    var band := LaidOutGroup(fgroup, PAD, y, BAND_W, ZONE_H);
    var members := Filter(drawnNodes, OfGroup(fgroup.group.id));
    var row;
    row, nodePos := LayRow(members, y, routesByParent, stateByParent, nodePos0);
    assert DrawsMember(f, drawnNodes, fgroup.group.id);
    RowIsAt(f, members, b, row, routesByParent, stateByParent);
    BandsLaidAdd(f, ordered, b, laidGroups0, groupBand0, laidNodes0, nodePos0, band, row);
    laidGroups, groupBand, laidNodes := laidGroups0 + [band], groupBand0[fgroup.group.id := band], laidNodes0 + row;
  }

  /** `groups` are folded groups of `f`, in the order of `ordered`. */
  ghost predicate InOrder(f: FoldedTerrain, groups: seq<FoldedGroup>, ordered: seq<Group>) {
    && |groups| == |ordered|
    && forall b :: 0 <= b < |groups| ==> groups[b] in f.groups && groups[b].group == ordered[b]
  }

  lemma {:induction false} NothingLaid(f: FoldedTerrain, ordered: seq<Group>)
    ensures BandsLaid(f, ordered, 0, [], map[], [], map[])
  {
  }

  /** Stack the bands from the top and place the members of each. */
  method LayBands(f: FoldedTerrain, orderedGroups: seq<FoldedGroup>, ghost ordered: seq<Group>,
      drawnNodes: seq<FoldedNode>, routesByParent: map<Id, seq<Route>>, stateByParent: map<Id, NodeState>)
    returns (laidGroups: seq<LaidOutGroup>, laidNodes: seq<LaidOutNode>, nodePos: map<Id, LaidOutNode>,
      groupBand: map<Id, LaidOutGroup>, y: real)
    requires InOrder(f, orderedGroups, ordered)
    requires DrawsMembers(f, drawnNodes) && HoldsServices(f, routesByParent, stateByParent)
    ensures BandsLaid(f, ordered, |ordered|, laidGroups, groupBand, laidNodes, nodePos)
    ensures y == BandTop(|ordered|)
  {
    laidGroups, laidNodes, nodePos, groupBand, y := [], [], map[], map[], PAD;
    NothingLaid(f, ordered);
    for b := 0 to |orderedGroups|
      invariant y == BandTop(b)
      invariant BandsLaid(f, ordered, b, laidGroups, groupBand, laidNodes, nodePos)
    {
      laidGroups, laidNodes, nodePos, groupBand :=
        LayBand(f, orderedGroups[b], drawnNodes, y, ordered, b, routesByParent, stateByParent, laidGroups, laidNodes,
          nodePos, groupBand);
      y := y + (ZONE_H + ZONE_GAP);
    }
  }

  ghost predicate EdgesAt(f: FoldedTerrain, laid: seq<LaidOutEdge>, lines: seq<Line>) {
    |laid| == |lines| && forall i :: 0 <= i < |lines| ==> EdgeAt(f, laid[i], lines[i])
  }

  /** `at`: the drawn node, the service of a collapsed endpoint, or the band. */
  method Resolve(nodePos: map<Id, LaidOutNode>, groupBand: map<Id, LaidOutGroup>, endpointToParent: map<Id, Id>,
      id: Id, ghost spots: seq<Spot>, ghost bands: seq<Band>) returns (p: Option<Point>)
    requires HoldsSpots(nodePos, spots) && HoldsBands(groupBand, bands)
    requires forall i :: i in endpointToParent ==> endpointToParent[i] == EndpointParentId(i)
    ensures p == At(spots, bands, endpointToParent.Keys, id)
  {
    assert HoldsSpotOf(nodePos, spots, id) && HoldsSpotOf(nodePos, spots, EndpointParentId(id));
    assert HoldsBandOf(groupBand, bands, id);
    if id in nodePos { return Some(Point(nodePos[id].x, nodePos[id].y)); }
    if id in endpointToParent && endpointToParent[id] != "" {
      var parentId := endpointToParent[id];
      if parentId in nodePos { return Some(Point(nodePos[parentId].x, nodePos[parentId].y)); }
    }
    if id in groupBand { return Some(Point(groupBand[id].x + groupBand[id].w / 2.0, groupBand[id].y)); }
    return None;
  }

  method LayEdges(f: FoldedTerrain, nodePos: map<Id, LaidOutNode>, groupBand: map<Id, LaidOutGroup>,
      endpointToParent: map<Id, Id>, ghost spots: seq<Spot>, ghost bands: seq<Band>)
    returns (laidEdges: seq<LaidOutEdge>)
    requires HoldsSpots(nodePos, spots) && HoldsBands(groupBand, bands)
    requires forall i :: i in endpointToParent ==> endpointToParent[i] == EndpointParentId(i)
    ensures EdgesAt(f, laidEdges, Lines(spots, bands, endpointToParent.Keys, EdgesOf(f)))
  {
    laidEdges := [];
    for i := 0 to |f.edges|
      invariant EdgesAt(f, laidEdges, Lines(spots, bands, endpointToParent.Keys, EdgesOf(f)[..i]))
    {
      var fedge := f.edges[i];
      assert EdgesOf(f)[..i + 1][..i] == EdgesOf(f)[..i] && EdgesOf(f)[i] == fedge.edge;
      var a := Resolve(nodePos, groupBand, endpointToParent, fedge.edge.src, spots, bands);
      var b := Resolve(nodePos, groupBand, endpointToParent, fedge.edge.dst, spots, bands);
      if a.None? || b.None? { continue; }
      if a.value.x == b.value.x && a.value.y == b.value.y { continue; }
      laidEdges := laidEdges + [LaidOutEdge(fedge, a.value.x, a.value.y, b.value.x, b.value.y)];
    }
    assert EdgesOf(f)[..|f.edges|] == EdgesOf(f);
  }

  lemma {:induction false} Assembled(f: FoldedTerrain, laidGroups: seq<LaidOutGroup>,
      groupBand: map<Id, LaidOutGroup>, laidNodes: seq<LaidOutNode>, nodePos: map<Id, LaidOutNode>,
      laidEdges: seq<LaidOutEdge>, r: Layout)
    requires var ordered := Ordered(GroupsOf(f));
      && BandsLaid(f, ordered, |ordered|, laidGroups, groupBand, laidNodes, nodePos)
      && EdgesAt(f, laidEdges, Lines(Spots(NodesOf(f), GroupIds(GroupsOf(f)), ordered, |ordered|),
        Bands(ordered, |ordered|),
                                     Collapsed(NodesOf(f), GroupIds(GroupsOf(f))), EdgesOf(f)))
      && r.height == if ordered == [] then PAD * 2.0 else BandTop(|ordered|) - ZONE_GAP + PAD
    requires r.width == WIDTH && r.groups == laidGroups && r.nodes == laidNodes && r.edges == laidEdges
    ensures LaysOut(f, r)
  {
  }

  method LayoutTerrainV2(f: FoldedTerrain) returns (r: Layout)
    ensures LaysOut(f, r)
  {
    var orderedGroups, drawnNodes, routesByParent, endpointToParent, stateByParent := Prepare(f);
    ghost var ordered := Ordered(GroupsOf(f));
    DrawnDraw(f, drawnNodes);
    var laidGroups, laidNodes, nodePos, groupBand, y :=
      LayBands(f, orderedGroups, ordered, drawnNodes, routesByParent, stateByParent);
    var height := if orderedGroups != [] then y - ZONE_GAP + PAD else PAD * 2.0;
    var laidEdges := LayEdges(f, nodePos, groupBand, endpointToParent,
                              Spots(NodesOf(f), GroupIds(GroupsOf(f)), ordered, |ordered|), Bands(ordered, |ordered|));
    r := Layout(WIDTH, height, laidGroups, laidNodes, laidEdges);
    Assembled(f, laidGroups, groupBand, laidNodes, nodePos, laidEdges, r);
  }

  // ---------- Time travel never moves the map ----------

  lemma {:induction false} FoldKeepsGraph(t: Terrain, k: int, f: FoldedTerrain)
    requires FoldsTo(t, k, f)
    ensures NodesOf(f) == t.nodes && GroupsOf(f) == t.groups && EdgesOf(f) == t.edges
  {
    assert forall i :: 0 <= i < |t.nodes| ==> NodeShows(t.nodes[i], f.nodes[i], States(t, k));
    assert forall i :: 0 <= i < |t.groups| ==> GroupShows(t.groups[i], f.groups[i], Shown(t, k));
    assert forall i :: 0 <= i < |t.edges| ==> EdgeShows(t.edges[i], f.edges[i], Lit(t, k));
  }

  predicate SameGroupPlace(a: LaidOutGroup, b: LaidOutGroup) {
    a.fgroup.group == b.fgroup.group && a.x == b.x && a.y == b.y && a.w == b.w && a.h == b.h
  }

  predicate SameNodePlace(a: LaidOutNode, b: LaidOutNode) {
    a.fnode.node == b.fnode.node && a.x == b.x && a.y == b.y && a.r == b.r && a.slotW == b.slotW && a.routes == b.routes
  }

  predicate SameEdgePlace(a: LaidOutEdge, b: LaidOutEdge) {
    a.fedge.edge == b.fedge.edge && a.x1 == b.x1 && a.y1 == b.y1 && a.x2 == b.x2 && a.y2 == b.y2
  }

  /** The two layouts put the same things at the same places. */
  ghost predicate SameCoordinates(r: Layout, q: Layout) {
    && r.width == q.width && r.height == q.height
    && |r.groups| == |q.groups| && (forall i :: 0 <= i < |r.groups| ==> SameGroupPlace(r.groups[i], q.groups[i]))
    && |r.nodes| == |q.nodes| && (forall i :: 0 <= i < |r.nodes| ==> SameNodePlace(r.nodes[i], q.nodes[i]))
    && |r.edges| == |q.edges| && (forall i :: 0 <= i < |r.edges| ==> SameEdgePlace(r.edges[i], q.edges[i]))
  }

  lemma {:induction false} OneGeometry(f: FoldedTerrain, g: FoldedTerrain, geo: Geometry, r: Layout, q: Layout)
    requires GeometryOf(NodesOf(f), GroupsOf(f), EdgesOf(f)) == geo == GeometryOf(NodesOf(g), GroupsOf(g), EdgesOf(g))
    requires LaysOut(f, r) && LaysOut(g, q)
    ensures SameCoordinates(r, q)
  {
    forall i | 0 <= i < |r.groups| ensures SameGroupPlace(r.groups[i], q.groups[i]) {
      assert GroupAt(f, r.groups[i], geo.bands[i]) && GroupAt(g, q.groups[i], geo.bands[i]);
    }
    forall i | 0 <= i < |r.nodes| ensures SameNodePlace(r.nodes[i], q.nodes[i]) {
      assert NodeAt(f, r.nodes[i], geo.spots[i]) && NodeAt(g, q.nodes[i], geo.spots[i]);
    }
    forall i | 0 <= i < |r.edges| ensures SameEdgePlace(r.edges[i], q.edges[i]) {
      assert EdgeAt(f, r.edges[i], geo.lines[i]) && EdgeAt(g, q.edges[i], geo.lines[i]);
    }
  }

  /** Every coordinate is the same at all fold points. */
  lemma {:induction false} TimeTravelKeepsCoordinates(t: Terrain, j: int, k: int, f: FoldedTerrain, g: FoldedTerrain,
      r: Layout, q: Layout)
    requires FoldsTo(t, j, f) && FoldsTo(t, k, g) && LaysOut(f, r) && LaysOut(g, q)
    ensures SameCoordinates(r, q)
  {
    FoldKeepsGraph(t, j, f);
    FoldKeepsGraph(t, k, g);
    OneGeometry(f, g, GeometryOf(t.nodes, t.groups, t.edges), r, q);
  }

  // ---------- The bands ----------

  lemma {:induction false} BandTopAscends(i: nat, j: nat)
    requires i < j
    ensures BandTop(i) + ZONE_H + ZONE_GAP <= BandTop(j)
  {
    if i + 1 < j {
      BandTopAscends(i, j - 1);
    }
  }

  lemma {:induction false} BandsAreBands(ordered: seq<Group>, b: nat)
    requires b <= |ordered|
    ensures |Bands(ordered, b)| == b
    ensures forall i :: 0 <= i < b ==> Bands(ordered, b)[i] == BandOf(ordered[i], i)
  {
    if b > 0 {
      BandsAreBands(ordered, b - 1);
    }
  }

  lemma {:induction false} OrderedByOrder(groups: seq<Group>)
    ensures forall i, j :: 0 <= i < j < |Ordered(groups)| ==> Ordered(groups)[i].order <= Ordered(groups)[j].order
  {
    assert TotalPreorder(GroupFirst);
    SortIsSorted(GroupFirst, groups);
    assert forall i, j :: 0 <= i < j < |Ordered(groups)| ==> GroupFirst(Ordered(groups)[i], Ordered(groups)[j]);
  }

  lemma {:induction false} BandTopsFit(n: nat)
    ensures forall i, j :: 0 <= i < j <= n ==> BandTop(i) + ZONE_H + ZONE_GAP <= BandTop(j)
    ensures forall i :: 0 <= i <= n ==> PAD <= BandTop(i)
  {
    forall i, j | 0 <= i < j <= n ensures BandTop(i) + ZONE_H + ZONE_GAP <= BandTop(j) {
      BandTopAscends(i, j);
    }
    assert BandTop(0) == PAD;
  }

  /** There is one band per group, in group order, with a gap between any two, and all of them fit. */
  lemma {:induction false} BandsAreDisjoint(nodes: seq<Node>, groups: seq<Group>, edges: seq<Edge>)
    ensures var g := GeometryOf(nodes, groups, edges);
      && |g.bands| == |groups| && multiset(Ordered(groups)) == multiset(groups)
      && (forall i :: 0 <= i < |g.bands| ==> g.bands[i].group == Ordered(groups)[i])
      && (forall i, j :: 0 <= i < j < |g.bands| ==>
           g.bands[i].group.order <= g.bands[j].group.order && g.bands[i].y + g.bands[i].h + ZONE_GAP <= g.bands[j].y)
      && (forall i :: 0 <= i < |g.bands| ==> PAD <= g.bands[i].y && g.bands[i].y + g.bands[i].h + PAD <= g.height)
  {
    var ordered := Ordered(groups);
    BandsAreBands(ordered, |ordered|);
    OrderedByOrder(groups);
    BandTopsFit(|ordered|);
  }

  lemma {:induction false} SlotBounds(i: nat, n: nat)
    requires i < n
    ensures SlotW(n) > 0.0
    ensures 0.0 <= SlotW(n) * (i as real + 0.5) - SlotW(n) / 2.0
    ensures SlotW(n) * (i as real + 0.5) + SlotW(n) / 2.0 <= BAND_W
  {
    var w, x := SlotW(n), i as real;
    assert w * n as real == BAND_W;
    assert w * (x + 0.5) == w * x + w / 2.0;
    assert w * x >= 0.0;
    assert w * (x + 1.0) == w * x + w;
    assert w * (x + 1.0) <= w * n as real by {
      assert x + 1.0 <= n as real;
    }
  }

  /** The disc and its slot lie inside band `b`, below the header. */
  ghost predicate InsideBand(s: Spot, b: nat) {
    && PAD <= s.at.x - s.slotW / 2.0 && s.at.x + s.slotW / 2.0 <= PAD + BAND_W
    && BandTop(b) + ZONE_HEADER <= s.at.y - s.r && s.at.y + s.r <= BandTop(b) + ZONE_H
  }

  lemma {:induction false} SpotInside(nodes: seq<Node>, groups: set<Id>, member: Node, i: nat, n: nat, band: nat)
    requires i < n
    ensures InsideBand(SpotOf(nodes, groups, member, i, n, band), band)
  {
    SlotBounds(i, n);
  }

  /** The spot lies inside one of the first `b` bands, that of its node's group. */
  ghost predicate InItsBand(s: Spot, ordered: seq<Group>, b: nat)
    requires b <= |ordered|
  {
    exists k :: 0 <= k < b && ordered[k].id == s.node.group && InsideBand(s, k)
  }

  lemma {:induction false} RowInside(nodes: seq<Node>, groups: set<Id>, g: Id, band: nat)
    ensures var members := Members(nodes, groups, g);
      forall s :: s in RowSpots(nodes, groups, members, |members|, band) ==> s.node.group == g && InsideBand(s, band)
  {
    var members := Members(nodes, groups, g);
    var row := RowSpots(nodes, groups, members, |members|, band);
    RowSpotsAt(nodes, groups, members, |members|, band);
    forall i | 0 <= i < |row| ensures row[i].node.group == g && InsideBand(row[i], band) {
      assert members[i] in members;
      SpotInside(nodes, groups, members[i], i, |members|, band);
    }
  }

  /** Every spot lies inside the band of its node's group. */
  lemma {:induction false} SpotsInside(nodes: seq<Node>, groups: set<Id>, ordered: seq<Group>, b: nat)
    requires b <= |ordered|
    ensures forall s :: s in Spots(nodes, groups, ordered, b) ==> InItsBand(s, ordered, b)
  {
    if b > 0 {
      SpotsInside(nodes, groups, ordered, b - 1);
      RowInside(nodes, groups, ordered[b - 1].id, b - 1);
      forall s | s in Spots(nodes, groups, ordered, b - 1) ensures InItsBand(s, ordered, b) {
        assert InItsBand(s, ordered, b - 1);
      }
    }
  }

  // ---------- Each node once ----------

  /** How often `n` is placed. */
  function Placed(spots: seq<Spot>, n: Node): nat {
    if spots == [] then 0 else Placed(spots[..|spots| - 1], n) + if spots[|spots| - 1].node == n then 1 else 0
  }

  lemma {:induction false} PlacedAppend(a: seq<Spot>, b: seq<Spot>, n: Node)
    ensures Placed(a + b, n) == Placed(a, n) + Placed(b, n)
  {
    if b == [] {
      assert a + b == a;
    } else {
      assert (a + b)[..|a + b| - 1] == a + b[..|b| - 1];
      PlacedAppend(a, b[..|b| - 1], n);
    }
  }

  lemma {:induction false} PlacedRow(nodes: seq<Node>, groups: set<Id>, members: seq<Node>, i: nat, band: nat, n: Node)
    requires i <= |members|
    ensures Placed(RowSpots(nodes, groups, members, i, band), n) == multiset(members[..i])[n]
  {
    if i > 0 {
      PlacedRow(nodes, groups, members, i - 1, band, n);
      assert members[..i] == members[..i - 1] + [members[i - 1]];
    }
  }

  function HasId(id: Id): Group -> bool {
    (g: Group) => g.id == id
  }

  lemma {:induction false} PlacedInBand(nodes: seq<Node>, groups: set<Id>, g: Id, band: nat, n: Node)
    ensures var members := Members(nodes, groups, g);
      Placed(RowSpots(nodes, groups, members, |members|, band), n) ==
        if IsMember(groups, g)(n) then multiset(nodes)[n] else 0
  {
    var members := Members(nodes, groups, g);
    PlacedRow(nodes, groups, members, |members|, band, n);
    assert members[..|members|] == members;
    FilterCount(nodes, IsMember(groups, g), n);
  }

  /** How many of the first `b` groups have this id. */
  function GroupsWithId(ordered: seq<Group>, id: Id): nat {
    |Filter(ordered, HasId(id))|
  }

  lemma {:induction false} GroupsWithIdStep(ordered: seq<Group>, b: nat, id: Id)
    requires 0 < b <= |ordered|
    ensures GroupsWithId(ordered[..b], id) ==
      GroupsWithId(ordered[..b - 1], id) + if ordered[b - 1].id == id then 1 else 0
  {
    assert ordered[..b] == ordered[..b - 1] + [ordered[b - 1]];
    FilterAppend(ordered[..b - 1], [ordered[b - 1]], HasId(id));
  }

  /** `c` copies of `m`. */
  function Times(c: nat, m: nat): nat {
    if c == 0 then 0 else Times(c - 1, m) + m
  }

  /** A drawn node is placed once for every group with the id of its group. */
  lemma {:induction false} PlacedPerGroup(nodes: seq<Node>, groups: set<Id>, ordered: seq<Group>, b: nat, n: Node)
    requires b <= |ordered| && IsDrawn(groups)(n)
    ensures Placed(Spots(nodes, groups, ordered, b), n) ==
      Times(GroupsWithId(ordered[..b], n.group), multiset(nodes)[n])
  {
    if b > 0 {
      PlacedPerGroup(nodes, groups, ordered, b - 1, n);
      var members := Members(nodes, groups, ordered[b - 1].id);
      PlacedAppend(Spots(nodes, groups, ordered, b - 1), RowSpots(nodes, groups, members, |members|, b - 1), n);
      PlacedInBand(nodes, groups, ordered[b - 1].id, b - 1, n);
      GroupsWithIdStep(ordered, b, n.group);
    } else {
      assert ordered[..0] == [];
    }
  }

  lemma {:induction false} OnceOnly(c: nat, m: nat)
    requires m > 0
    ensures Times(c, m) == m <==> c == 1
    ensures Times(c, m) >= c
  {
    if c > 0 { OnceOnly(c - 1, m); }
  }

  /** Each drawn node is placed exactly as often as it is listed, if and only if no other group shares
      the id of its group. */
  lemma {:induction false} EachDrawnNodeOnce(nodes: seq<Node>, groups: seq<Group>, edges: seq<Edge>, n: Node)
    requires n in nodes && IsDrawn(GroupIds(groups))(n)
    ensures Placed(GeometryOf(nodes, groups, edges).spots, n) == multiset(nodes)[n] <==>
      GroupsWithId(groups, n.group) == 1
  {
    var ordered := Ordered(groups);
    assert Placed(GeometryOf(nodes, groups, edges).spots, n) ==
      Times(GroupsWithId(groups, n.group), multiset(nodes)[n]) by {
      PlacedPerGroup(nodes, GroupIds(groups), ordered, |ordered|, n);
      assert ordered[..|ordered|] == ordered;
      SortCount(GroupFirst, groups, HasId(n.group));
    }
    OnceOnly(GroupsWithId(groups, n.group), multiset(nodes)[n]);
  }

  // ---------- The state shown ----------

  lemma {:induction false} CollapsedIsMax(drawn: set<Id>, endpoints: seq<FoldedNode>, parent: Id)
    ensures var c := CollapsedState(drawn, endpoints, parent);
      && (c.None? <==> forall e :: e in endpoints ==> !CollapsesOnto(drawn, e.node.id, parent))
      && (forall e :: e in endpoints && CollapsesOnto(drawn, e.node.id, parent) ==>
        e.state.Rank() <= c.GetOr(Defined).Rank())
      && (c.Some? ==> exists e :: e in endpoints && CollapsesOnto(drawn, e.node.id, parent) && e.state == c.value)
  {
    if endpoints != [] {
      CollapsedIsMax(drawn, endpoints[..|endpoints| - 1], parent);
      assert endpoints == endpoints[..|endpoints| - 1] + [endpoints[|endpoints| - 1]];
    }
  }

  predicate CollapsesIn(f: FoldedTerrain, e: FoldedNode, parent: Id) {
    var ids := GroupIds(GroupsOf(f));
    OfEndpoint(ids)(e) && CollapsesOnto(DrawnIds(NodesOf(f), ids), e.node.id, parent)
  }

  /** The state shown is the join of the node's own state and those of its collapsed endpoints. */
  lemma {:induction false} EffectiveIsJoin(f: FoldedTerrain, n: FoldedNode)
    ensures var s := EffectiveState(f, n);
      && n.state.Rank() <= s.Rank()
      && (forall e :: e in f.nodes && CollapsesIn(f, e, n.node.id) ==> e.state.Rank() <= s.Rank())
      && (s == n.state || exists e :: e in f.nodes && CollapsesIn(f, e, n.node.id) && e.state == s)
  {
    var ids := GroupIds(GroupsOf(f));
    CollapsedIsMax(DrawnIds(NodesOf(f), ids), Filter(f.nodes, OfEndpoint(ids)), n.node.id);
  }

  /** The same nodes, none of them further back. */
  ghost predicate Advanced(a: seq<FoldedNode>, b: seq<FoldedNode>) {
    |a| == |b| && forall i :: 0 <= i < |a| ==> a[i].node == b[i].node && a[i].state.Rank() <= b[i].state.Rank()
  }

  lemma {:induction false} AdvancedJoin(a: seq<FoldedNode>, b: seq<FoldedNode>, more: seq<FoldedNode>,
      more': seq<FoldedNode>)
    requires Advanced(a, b) && Advanced(more, more')
    ensures Advanced(a + more, b + more')
  {
  }

  lemma {:induction false} AdvancedFilter(a: seq<FoldedNode>, b: seq<FoldedNode>, keep: FoldedNode -> bool)
    requires Advanced(a, b)
    requires forall m: FoldedNode, n: FoldedNode :: m.node == n.node ==> keep(m) == keep(n)
    ensures Advanced(Filter(a, keep), Filter(b, keep))
  {
    if a != [] {
      var x, y, more, more' := a[0], b[0], a[1..], b[1..];
      assert a == [x] + more && b == [y] + more';
      AdvancedFilter(more, more', keep);
      FilterCons(x, more, keep);
      FilterCons(y, more', keep);
      AdvancedJoin(Kept(x, keep), Kept(y, keep), Filter(more, keep), Filter(more', keep));
    }
  }

  lemma {:induction false} AdvancedCollapsed(drawn: set<Id>, a: seq<FoldedNode>, b: seq<FoldedNode>, parent: Id)
    requires Advanced(a, b)
    ensures CollapsedState(drawn, a, parent).None? <==> CollapsedState(drawn, b, parent).None?
    ensures CollapsedState(drawn, a, parent).GetOr(Defined).Rank() <=
      CollapsedState(drawn, b, parent).GetOr(Defined).Rank()
  {
    if a != [] {
      AdvancedCollapsed(drawn, a[..|a| - 1], b[..|b| - 1], parent);
    }
  }

  /** The node `n` as the fold at `k` has it. */
  function AsFolded(t: Terrain, k: int, n: Node): FoldedNode
    requires n.id in States(t, k)
  {
    FoldedNode(n, States(t, k)[n.id])
  }

  lemma {:induction false} FoldsAdvance(t: Terrain, j: int, k: int, f: FoldedTerrain, g: FoldedTerrain)
    requires j <= k && FoldsTo(t, j, f) && FoldsTo(t, k, g)
    ensures Advanced(f.nodes, g.nodes)
  {
    FoldMonotone(t, j, k, f, g);
    forall i | 0 <= i < |t.nodes| ensures f.nodes[i].node == g.nodes[i].node {
      assert NodeShows(t.nodes[i], f.nodes[i], States(t, j));
      assert NodeShows(t.nodes[i], g.nodes[i], States(t, k));
    }
  }

  lemma {:induction false} JoinMonotone(f: FoldedTerrain, g: FoldedTerrain, m: FoldedNode, n: FoldedNode,
      nodes: seq<Node>, groups: seq<Group>)
    requires Advanced(f.nodes, g.nodes) && NodesOf(f) == nodes == NodesOf(g) && GroupsOf(f) == groups == GroupsOf(g)
    requires m.node == n.node && m.state.Rank() <= n.state.Rank()
    ensures EffectiveState(f, m).Rank() <= EffectiveState(g, n).Rank()
  {
    var ids := GroupIds(groups);
    AdvancedFilter(f.nodes, g.nodes, OfEndpoint(ids));
    AdvancedCollapsed(DrawnIds(nodes, ids), Filter(f.nodes, OfEndpoint(ids)), Filter(g.nodes, OfEndpoint(ids)),
      m.node.id);
  }

  /** Going forward in time, no node on the map shows a lower state, its endpoints included. */
  lemma {:induction false} EffectiveMonotone(t: Terrain, j: int, k: int, f: FoldedTerrain, g: FoldedTerrain, n: Node)
    requires j <= k && FoldsTo(t, j, f) && FoldsTo(t, k, g) && n.id in States(t, j)
    ensures n.id in States(t, k)
    ensures EffectiveState(f, AsFolded(t, j, n)).Rank() <= EffectiveState(g, AsFolded(t, k, n)).Rank()
  {
    StatesClimb(t, j, k);
    FoldsAdvance(t, j, k, f, g);
    FoldKeepsGraph(t, j, f);
    FoldKeepsGraph(t, k, g);
    JoinMonotone(f, g, AsFolded(t, j, n), AsFolded(t, k, n), t.nodes, t.groups);
  }

  lemma {:induction false} DrawnState(t: Terrain, k: int, f: FoldedTerrain, laid: LaidOutNode, spot: Spot)
    requires FoldsTo(t, k, f) && NodeAt(f, laid, spot)
    ensures spot.node.id in States(t, k) && laid.fnode.state == EffectiveState(f, AsFolded(t, k, spot.node))
  {
    var n :| n in f.nodes && n.node == spot.node && laid.fnode.state == EffectiveState(f, n);
    var a :| 0 <= a < |f.nodes| && f.nodes[a] == n;
    assert NodeShows(t.nodes[a], f.nodes[a], States(t, k));
  }

  /** The same on the layouts: the node at position `i` never falls back. */
  lemma {:induction false} ShownStateMonotone(t: Terrain, j: int, k: int, f: FoldedTerrain, g: FoldedTerrain,
      r: Layout, q: Layout, i: nat)
    requires j <= k && FoldsTo(t, j, f) && FoldsTo(t, k, g) && LaysOut(f, r) && LaysOut(g, q) && i < |r.nodes|
    ensures i < |q.nodes| && r.nodes[i].fnode.state.Rank() <= q.nodes[i].fnode.state.Rank()
  {
    FoldKeepsGraph(t, j, f);
    FoldKeepsGraph(t, k, g);
    var spots := GeometryOf(t.nodes, t.groups, t.edges).spots;
    assert NodeAt(f, r.nodes[i], spots[i]) && NodeAt(g, q.nodes[i], spots[i]);
    DrawnState(t, j, f, r.nodes[i], spots[i]);
    DrawnState(t, k, g, q.nodes[i], spots[i]);
    EffectiveMonotone(t, j, k, f, g, spots[i].node);
  }
}
