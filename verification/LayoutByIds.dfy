/** The terrain layout said without its machinery (live-trace/terrain-layout.ts, `layoutTerrainV2`): by
    the ids of the nodes, the order of the groups and the numbers on the map. */
module LayoutByIds {
  import opened Prelude
  import opened Sorting
  import opened TerrainFold
  import opened TerrainLayout

  // ---------- Endpoints and services ----------

  /** The endpoint id is that of the service, or goes on after it with a colon; the service has none. */
  predicate IsRouteOf(e: Id, service: Id) {
    ':' !in service && (e == service || service + ":" <= e)
  }

  lemma {:induction false} PrefixOfCons(a: char, x: string, c: char, y: string)
    ensures [a] + x <= [c] + y <==> a == c && x <= y
  {
    if [a] + x <= [c] + y {
      assert ([a] + x)[0] == ([c] + y)[0];
      assert x == ([a] + x)[1..] && y[..|x|] == ([c] + y)[1..|x| + 1];
    }
  }

  lemma {:induction false} ConsRoute(c: char, e: Id, p: Id)
    requires c != ':'
    ensures IsRouteOf([c] + e, p) <==> p != [] && p[0] == c && IsRouteOf(e, p[1..])
  {
    var s := [c] + e;
    assert s[1..] == e;
    if p != [] {
      var q := p[1..];
      assert p == [p[0]] + q && p + ":" == [p[0]] + (q + ":");
      assert s == p <==> p[0] == c && e == q;
      PrefixOfCons(p[0], q + ":", c, e);
    } else {
      assert p + ":" == [':'] + "";
      PrefixOfCons(':', "", c, e);
    }
  }

  /** The service of an endpoint is what stands before its first colon. */
  lemma {:induction false} ParentIs(e: Id, p: Id)
    ensures EndpointParentId(e) == p <==> IsRouteOf(e, p)
    decreases |e|
  {
    if e == "" {
      assert IsRouteOf(e, p) <==> p == "";
    } else if e[0] == ':' {
      if p != "" && p + ":" <= e { assert (p + ":")[0] == p[0]; }
    } else {
      assert e == [e[0]] + e[1..];
      ConsRoute(e[0], e[1..], p);
      if p != "" {
        ParentIs(e[1..], p[1..]);
        assert p == [p[0]] + p[1..];
      }
    }
  }

  /** In particular: a prefix without a colon is the service of whatever follows its colon, and an id
      without a colon is its own. */
  lemma {:induction false} ParentOfRoute(p: Id, rest: string)
    requires ':' !in p
    ensures EndpointParentId(p + ":" + rest) == p && EndpointParentId(p) == p
  {
    assert p + ":" <= p + ":" + rest;
    ParentIs(p + ":" + rest, p);
    ParentIs(p, p);
  }

  // ---------- The nodes on the map ----------

  predicate HasGroup(groups: seq<Group>, id: Id) {
    exists g :: 0 <= g < |groups| && groups[g].id == id
  }

  lemma {:induction false} GroupIdsAre(groups: seq<Group>, id: Id)
    ensures id in GroupIds(groups) <==> HasGroup(groups, id)
  {
    if g :| g in groups && g.id == id { var i :| 0 <= i < |groups| && groups[i] == g; }
  }

  /** The node is an endpoint of the service `id`, in a group of the map. */
  function RouteNode(groups: seq<Group>, id: Id): Node -> bool {
    (n: Node) => n.kind == "endpoint" && HasGroup(groups, n.group) && IsRouteOf(n.id, id)
  }

  function RouteOf(): Node -> Route { (n: Node) => Route(n.id, n.name) }

  /** The routes of a service, in the order of the nodes. */
  function RouteList(nodes: seq<Node>, groups: seq<Group>, id: Id): seq<Route> {
    Map(Filter(nodes, RouteNode(groups, id)), RouteOf())
  }

  function OnService(id: Id): Node -> bool { (n: Node) => IsRouteOf(n.id, id) }

  lemma {:induction false} RoutesAre(drawn: set<Id>, endpoints: seq<Node>, id: Id)
    requires id in drawn
    ensures Routes(drawn, endpoints, id) == Map(Filter(endpoints, OnService(id)), RouteOf())
  {
    if endpoints != [] {
      var front, n := endpoints[..|endpoints| - 1], endpoints[|endpoints| - 1];
      assert endpoints == front + [n];
      RoutesAre(drawn, front, id);
      ParentIs(n.id, id);
      FilterAppend(front, [n], OnService(id));
      FilterCons(n, [], OnService(id));
      assert [n] + [] == [n];
    }
  }

  lemma {:induction false} RoutesShownAre(nodes: seq<Node>, groups: seq<Group>, id: Id)
    requires id in DrawnIds(nodes, GroupIds(groups))
    ensures RoutesShown(nodes, GroupIds(groups), id) ==
      var routes := RouteList(nodes, groups, id); if routes == [] then None else Some(routes)
  {
    var ids := GroupIds(groups);
    RoutesAre(DrawnIds(nodes, ids), Filter(nodes, IsEndpoint(ids)), id);
    forall n | n in nodes ensures RouteNode(groups, id)(n) <==> IsEndpoint(ids)(n) && OnService(id)(n) {
      GroupIdsAre(groups, n.group);
    }
    FilterFilter(nodes, IsEndpoint(ids), OnService(id), RouteNode(groups, id));
  }

  /** The node is drawn in the band of the group `g`. */
  function CircleIn(g: Id): Node -> bool { (n: Node) => n.kind != "endpoint" && n.group == g }

  function Circles(nodes: seq<Node>, g: Id): seq<Node> { Filter(nodes, CircleIn(g)) }

  lemma {:induction false} FilterSame<T(!new)>(s: seq<T>, p: T -> bool, q: T -> bool)
    requires forall x :: x in s ==> p(x) == q(x)
    ensures Filter(s, p) == Filter(s, q)
  {
    if s != [] {
      assert s[0] in s && forall x :: x in s[1..] ==> x in s;
      FilterSame(s[1..], p, q);
    }
  }

  lemma {:induction false} MembersAre(nodes: seq<Node>, groups: seq<Group>, g: Group)
    requires g in groups
    ensures Members(nodes, GroupIds(groups), g.id) == Circles(nodes, g.id)
  {
    FilterSame(nodes, IsMember(GroupIds(groups), g.id), CircleIn(g.id));
  }

  lemma {:induction false} CircleIsDrawn(nodes: seq<Node>, groups: seq<Group>, g: Group, n: Node)
    requires g in groups && n in Circles(nodes, g.id)
    ensures n in nodes && n.id in DrawnIds(nodes, GroupIds(groups))
  {
    assert n in Filter(nodes, IsDrawn(GroupIds(groups)));
  }

  // ---------- Where things are ----------

  lemma {:induction false} BandTopIs(i: nat)
    ensures BandTop(i) == 20.0 + 112.0 * i as real
  {
    if i > 0 { BandTopIs(i - 1); }
  }

  /** How many circles are drawn in the first `b` bands. */
  function Before(nodes: seq<Node>, ordered: seq<Group>, b: nat): nat
    requires b <= |ordered|
  {
    if b == 0 then 0 else Before(nodes, ordered, b - 1) + |Circles(nodes, ordered[b - 1].id)|
  }

  /** The place of the `m`-th of `n` circles in band `b`: the middle of its slot. */
  function CircleAt(m: nat, n: nat, b: nat): Point
    requires m < n
  {
    Point(20.0 + 720.0 / n as real * (m as real + 0.5), 20.0 + 112.0 * b as real + 48.0)
  }

  predicate SpotIs(s: Spot, node: Node, m: nat, n: nat, b: nat, routes: seq<Route>) {
    && m < n
    && s.node == node && s.at == CircleAt(m, n, b) && s.r == 16.0 && s.slotW == 720.0 / n as real
    && s.routes == if routes == [] then None else Some(routes)
  }

  lemma {:induction false} PlaceIs(m: nat, n: nat, b: nat)
    requires m < n
    ensures Point(PAD + SlotW(n) * (m as real + 0.5), BandTop(b) + ZONE_HEADER + PARENT_ROW) == CircleAt(m, n, b)
    ensures SlotW(n) == 720.0 / n as real && PARENT_R == 16.0
  {
    BandTopIs(b);
  }

  lemma {:induction false} SpotOfIs(nodes: seq<Node>, groups: seq<Group>, g: Group, m: nat, b: nat)
    requires g in groups && m < |Circles(nodes, g.id)|
    ensures var circles := Circles(nodes, g.id);
      SpotIs(SpotOf(nodes, GroupIds(groups), circles[m], m, |circles|, b), circles[m], m, |circles|, b,
             RouteList(nodes, groups, circles[m].id))
  {
    var circles := Circles(nodes, g.id);
    CircleIsDrawn(nodes, groups, g, circles[m]);
    RoutesShownAre(nodes, groups, circles[m].id);
    PlaceIs(m, |circles|, b);
  }

  /** `row` stands in `spots` from `k` on. */
  predicate RowAt(spots: seq<Spot>, row: seq<Spot>, k: nat) {
    k + |row| <= |spots| && spots[k..k + |row|] == row
  }

  /** The row of band `c`. */
  function RowFor(nodes: seq<Node>, groups: set<Id>, g: Id, c: nat): seq<Spot> {
    var members := Members(nodes, groups, g);
    RowSpots(nodes, groups, members, |members|, c)
  }

  lemma {:induction false} SpotsPush(nodes: seq<Node>, groups: set<Id>, ordered: seq<Group>, b: nat)
    requires 0 < b <= |ordered|
    ensures Spots(nodes, groups, ordered, b) ==
      Spots(nodes, groups, ordered, b - 1) + RowFor(nodes, groups, ordered[b - 1].id, b - 1)
  {
  }

  lemma {:induction false} RowCount(nodes: seq<Node>, groups: seq<Group>, ids: set<Id>, g: Group, c: nat)
    requires ids == GroupIds(groups) && g in groups
    ensures |RowFor(nodes, ids, g.id, c)| == |Circles(nodes, g.id)|
  {
    var circles := Circles(nodes, g.id);
    MembersAre(nodes, groups, g);
    RowSpotsAt(nodes, ids, circles, |circles|, c);
  }

  lemma {:induction false} RowIs(nodes: seq<Node>, groups: seq<Group>, g: Group, c: nat, m: nat)
    requires g in groups && m < |Circles(nodes, g.id)|
    ensures var circles := Circles(nodes, g.id);
      && |RowFor(nodes, GroupIds(groups), g.id, c)| == |circles|
      && SpotIs(RowFor(nodes, GroupIds(groups), g.id, c)[m], circles[m], m, |circles|, c,
                RouteList(nodes, groups, circles[m].id))
  {
    var circles := Circles(nodes, g.id);
    MembersAre(nodes, groups, g);
    RowSpotsAt(nodes, GroupIds(groups), circles, |circles|, c);
    SpotOfIs(nodes, groups, g, m, c);
  }

  lemma {:induction false} RowInPrefix(spots: seq<Spot>, front: seq<Spot>, row: seq<Spot>)
    requires front + row <= spots
    ensures RowAt(spots, row, |front|)
  {
    assert spots[|front|..|front| + |row|] == (front + row)[|front|..];
  }

  lemma {:induction false} SpotsPrefix(nodes: seq<Node>, groups: set<Id>, ordered: seq<Group>, c: nat, b: nat)
    requires c <= b <= |ordered|
    ensures Spots(nodes, groups, ordered, c) <= Spots(nodes, groups, ordered, b)
  {
    if c < b {
      SpotsPrefix(nodes, groups, ordered, c, b - 1);
      SpotsPush(nodes, groups, ordered, b);
    }
  }

  lemma {:induction false} SpotsCountOn(spots: seq<Spot>, front: seq<Spot>, row: seq<Spot>, nodes: seq<Node>,
      ordered: seq<Group>, b: nat)
    requires 0 < b <= |ordered| && spots == front + row
    requires |front| == Before(nodes, ordered, b - 1) && |row| == |Circles(nodes, ordered[b - 1].id)|
    ensures |spots| == Before(nodes, ordered, b)
  {
  }

  /** Each row holds the circles of its band. */
  ghost predicate RowsFull(nodes: seq<Node>, ids: set<Id>, ordered: seq<Group>) {
    forall c :: 0 <= c < |ordered| ==> |RowFor(nodes, ids, ordered[c].id, c)| == |Circles(nodes, ordered[c].id)|
  }

  lemma {:induction false} RowsAreFull(nodes: seq<Node>, groups: seq<Group>, ids: set<Id>, ordered: seq<Group>)
    requires ids == GroupIds(groups) && forall g :: g in ordered ==> g in groups
    ensures RowsFull(nodes, ids, ordered)
  {
    forall c | 0 <= c < |ordered|
      ensures |RowFor(nodes, ids, ordered[c].id, c)| == |Circles(nodes, ordered[c].id)|
    {
      RowCount(nodes, groups, ids, ordered[c], c);
    }
  }

  lemma {:induction false} SpotsCount(nodes: seq<Node>, ids: set<Id>, ordered: seq<Group>, b: nat)
    requires RowsFull(nodes, ids, ordered) && b <= |ordered|
    ensures |Spots(nodes, ids, ordered, b)| == Before(nodes, ordered, b)
    decreases b
  {
    if b > 0 {
      SpotsCount(nodes, ids, ordered, b - 1);
      SpotsPush(nodes, ids, ordered, b);
      SpotsCountOn(Spots(nodes, ids, ordered, b), Spots(nodes, ids, ordered, b - 1),
                   RowFor(nodes, ids, ordered[b - 1].id, b - 1), nodes, ordered, b);
    }
  }

  lemma {:induction false} SpotsSplit(nodes: seq<Node>, groups: set<Id>, ordered: seq<Group>, c: nat)
    requires c < |ordered|
    ensures Spots(nodes, groups, ordered, c) + RowFor(nodes, groups, ordered[c].id, c) <=
      Spots(nodes, groups, ordered, |ordered|)
  {
    SpotsPush(nodes, groups, ordered, c + 1);
    SpotsPrefix(nodes, groups, ordered, c + 1, |ordered|);
  }

  /** The circles of every band stand in a row, after those of the bands above. */
  lemma {:induction false} BandRow(nodes: seq<Node>, groups: seq<Group>, ids: set<Id>, ordered: seq<Group>, c: nat,
      spots: seq<Spot>) returns (row: seq<Spot>)
    requires ids == GroupIds(groups) && c < |ordered| && forall g :: g in ordered ==> g in groups
    requires spots == Spots(nodes, ids, ordered, |ordered|)
    ensures row == RowFor(nodes, ids, ordered[c].id, c) && RowAt(spots, row, Before(nodes, ordered, c))
  {
    row := RowFor(nodes, ids, ordered[c].id, c);
    SpotsSplit(nodes, ids, ordered, c);
    RowsAreFull(nodes, groups, ids, ordered);
    SpotsCount(nodes, ids, ordered, c);
    RowInPrefix(spots, Spots(nodes, ids, ordered, c), row);
  }

  // ---------- The states shown ----------

  /** An endpoint of the service `id`, in a group of the map. */
  predicate EndpointOf(f: FoldedTerrain, e: FoldedNode, id: Id) {
    RouteNode(GroupsOf(f), id)(e.node)
  }

  /** The higher of the node's own state and those of its endpoints, by the names of the states. */
  ghost predicate ShowsState(f: FoldedTerrain, n: FoldedNode, s: NodeState) {
    && (s == Completed <==>
      n.state == Completed || exists e :: e in f.nodes && EndpointOf(f, e, n.node.id) && e.state == Completed)
    && (s == Defined <==>
      n.state == Defined && forall e :: e in f.nodes && EndpointOf(f, e, n.node.id) ==> e.state == Defined)
  }

  lemma {:induction false} EndpointsCollapse(f: FoldedTerrain, e: FoldedNode, id: Id)
    requires id in DrawnIds(NodesOf(f), GroupIds(GroupsOf(f)))
    ensures CollapsesIn(f, e, id) <==> EndpointOf(f, e, id)
  {
    ParentIs(e.node.id, id);
    GroupIdsAre(GroupsOf(f), e.node.group);
  }

  lemma {:induction false} StateIs(f: FoldedTerrain, n: FoldedNode)
    requires n.node.id in DrawnIds(NodesOf(f), GroupIds(GroupsOf(f)))
    ensures ShowsState(f, n, EffectiveState(f, n))
  {
    EffectiveIsJoin(f, n);
    forall e ensures CollapsesIn(f, e, n.node.id) <==> EndpointOf(f, e, n.node.id) {
      EndpointsCollapse(f, e, n.node.id);
    }
  }

  // ---------- The layout ----------

  ghost predicate SameOrder(groups: seq<Group>, ordered: seq<Group>, o: int) {
    Filter(ordered, (g: Group) => g.order == o) == Filter(groups, (g: Group) => g.order == o)
  }

  /** The groups in the order of the bands: by `order`, and as listed where that is the same. */
  ghost predicate InBandOrder(groups: seq<Group>, ordered: seq<Group>) {
    && multiset(ordered) == multiset(groups) && |ordered| == |groups|
    && (forall i, j :: 0 <= i < j < |ordered| ==> ordered[i].order <= ordered[j].order)
    && (forall o: int :: SameOrder(groups, ordered, o))
  }

  predicate BandIs(g: LaidOutGroup, group: Group, b: nat) {
    g.fgroup.group == group && g.x == 20.0 && g.y == 20.0 + 112.0 * b as real && g.w == 720.0 && g.h == 94.0
  }

  /** The `m`-th of the `n` circles of band `b`. */
  predicate StandsAt(laid: LaidOutNode, m: nat, n: nat, b: nat) {
    m < n && Point(laid.x, laid.y) == CircleAt(m, n, b) && laid.r == 16.0 && laid.slotW == 720.0 / n as real
  }

  function RoutesIn(f: FoldedTerrain, id: Id): Option<seq<Route>> {
    var routes := RouteList(NodesOf(f), GroupsOf(f), id);
    if routes == [] then None else Some(routes)
  }

  /** The circle draws `node`, with the routes and the state of its service. */
  ghost predicate Draws(f: FoldedTerrain, laid: LaidOutNode, node: Node) {
    && laid.fnode.node == node
    && laid.routes == RoutesIn(f, node.id)
    && exists own :: own in f.nodes && own.node == node && ShowsState(f, own, laid.fnode.state)
  }

  lemma {:induction false} OrderedIs(groups: seq<Group>)
    ensures InBandOrder(groups, Ordered(groups))
  {
    OrderedByOrder(groups);
    forall o: int ensures SameOrder(groups, Ordered(groups), o) {
      SortStable(GroupFirst, groups, (g: Group) => g.order == o);
    }
  }

  /** The frame and the bands of every layout. */
  lemma {:induction false} FrameIs(f: FoldedTerrain, r: Layout)
    requires LaysOut(f, r)
    ensures r.width == 760.0 && |r.groups| == |f.groups|
    ensures r.height == if f.groups == [] then 40.0 else 22.0 + 112.0 * |f.groups| as real
    ensures InBandOrder(GroupsOf(f), Ordered(GroupsOf(f)))
    ensures forall b :: 0 <= b < |r.groups| ==>
      r.groups[b].fgroup in f.groups && BandIs(r.groups[b], Ordered(GroupsOf(f))[b], b)
  {
    var ordered := Ordered(GroupsOf(f));
    OrderedIs(GroupsOf(f));
    BandsAreBands(ordered, |ordered|);
    BandTopIs(|ordered|);
    forall b | 0 <= b < |r.groups|
      ensures r.groups[b].fgroup in f.groups && BandIs(r.groups[b], ordered[b], b)
    {
      BandTopIs(b);
      assert GroupAt(f, r.groups[b], Bands(ordered, |ordered|)[b]);
    }
  }

  ghost predicate LaidFrom(f: FoldedTerrain, r: Layout, spots: seq<Spot>) {
    |r.nodes| == |spots| && forall i :: 0 <= i < |spots| ==> NodeAt(f, r.nodes[i], spots[i])
  }

  lemma {:induction false} SpotStands(f: FoldedTerrain, laid: LaidOutNode, spot: Spot, node: Node, m: nat, n: nat,
      b: nat,
      routes: seq<Route>)
    requires NodeAt(f, laid, spot) && SpotIs(spot, node, m, n, b, routes)
    ensures StandsAt(laid, m, n, b)
  {
  }

  lemma {:induction false} SpotDraws(f: FoldedTerrain, laid: LaidOutNode, spot: Spot, node: Node)
    requires NodeAt(f, laid, spot) && spot.node == node && spot.routes == RoutesIn(f, node.id)
    requires node.id in DrawnIds(NodesOf(f), GroupIds(GroupsOf(f)))
    ensures Draws(f, laid, node)
  {
    var own :| own in f.nodes && own.node == node && laid.fnode.state == EffectiveState(f, own);
    StateIs(f, own);
  }

  /** The nodes laid out from `k` on are drawn at the spots of `row`. */
  ghost predicate DrawnFrom(f: FoldedTerrain, r: Layout, row: seq<Spot>, k: nat) {
    k + |row| <= |r.nodes| && forall i :: 0 <= i < |row| ==> NodeAt(f, r.nodes[k + i], row[i])
  }

  lemma {:induction false} RowIsDrawn(f: FoldedTerrain, r: Layout, spots: seq<Spot>, row: seq<Spot>, k: nat)
    requires LaidFrom(f, r, spots) && RowAt(spots, row, k)
    ensures DrawnFrom(f, r, row, k)
  {
    forall i | 0 <= i < |row| ensures NodeAt(f, r.nodes[k + i], row[i]) {
      assert spots[k + i] == spots[k..k + |row|][i] == row[i];
    }
  }

  /** The nodes of the layout are drawn where the geometry of the graph has them. */
  ghost predicate NodesLaid(f: FoldedTerrain, r: Layout, ordered: seq<Group>) {
    && ordered == Ordered(GroupsOf(f))
    && LaidFrom(f, r, Spots(NodesOf(f), GroupIds(GroupsOf(f)), ordered, |ordered|))
  }

  /** They are in every layout. */
  lemma {:induction false} LayoutLaysNodes(f: FoldedTerrain, r: Layout)
    requires LaysOut(f, r)
    ensures NodesLaid(f, r, Ordered(GroupsOf(f)))
  {
  }

  lemma {:induction false} BandIsDrawn(f: FoldedTerrain, r: Layout, ordered: seq<Group>, b: nat)
    requires NodesLaid(f, r, ordered) && b < |ordered|
    ensures ordered[b] in GroupsOf(f)
    ensures DrawnFrom(f, r, RowFor(NodesOf(f), GroupIds(GroupsOf(f)), ordered[b].id, b), Before(NodesOf(f), ordered, b))
  {
    var ids := GroupIds(GroupsOf(f));
    SortMembers(GroupFirst, GroupsOf(f));
    var spots := Spots(NodesOf(f), ids, ordered, |ordered|);
    var row := BandRow(NodesOf(f), GroupsOf(f), ids, ordered, b, spots);
    RowIsDrawn(f, r, spots, row, Before(NodesOf(f), ordered, b));
  }

  lemma {:induction false} RowStands(f: FoldedTerrain, r: Layout, row: seq<Spot>, k: nat, node: Node, m: nat, n: nat,
      b: nat, routes: seq<Route>)
    requires DrawnFrom(f, r, row, k) && m < |row| && SpotIs(row[m], node, m, n, b, routes)
    ensures k + m < |r.nodes| && StandsAt(r.nodes[k + m], m, n, b)
  {
    SpotStands(f, r.nodes[k + m], row[m], node, m, n, b, routes);
  }

  /** Every circle of every band is laid out, after those of the bands above, in the middle of its slot. */
  lemma {:induction false} CirclesStand(f: FoldedTerrain, r: Layout, ordered: seq<Group>, b: nat, m: nat, k: nat,
      n: nat)
    requires NodesLaid(f, r, ordered) && b < |ordered|
    requires k == Before(NodesOf(f), ordered, b) && m < n == |Circles(NodesOf(f), ordered[b].id)|
    ensures k + m < |r.nodes| && StandsAt(r.nodes[k + m], m, n, b)
  {
    var circles := Circles(NodesOf(f), ordered[b].id);
    BandIsDrawn(f, r, ordered, b);
    RowIs(NodesOf(f), GroupsOf(f), ordered[b], b, m);
    RowStands(f, r, RowFor(NodesOf(f), GroupIds(GroupsOf(f)), ordered[b].id, b), k, circles[m], m, n, b,
              RouteList(NodesOf(f), GroupsOf(f), circles[m].id));
  }

  lemma {:induction false} RowDraws(f: FoldedTerrain, r: Layout, row: seq<Spot>, k: nat, node: Node, m: nat)
    requires DrawnFrom(f, r, row, k) && m < |row| && row[m].node == node && row[m].routes == RoutesIn(f, node.id)
    requires node.id in DrawnIds(NodesOf(f), GroupIds(GroupsOf(f)))
    ensures k + m < |r.nodes| && Draws(f, r.nodes[k + m], node)
  {
    SpotDraws(f, r.nodes[k + m], row[m], node);
  }

  /** It draws the node that comes `m`-th in the group, with its routes and the state of its service. */
  lemma {:induction false} CirclesDraw(f: FoldedTerrain, r: Layout, ordered: seq<Group>, b: nat, m: nat, k: nat)
    requires NodesLaid(f, r, ordered) && b < |ordered|
    requires k == Before(NodesOf(f), ordered, b) && m < |Circles(NodesOf(f), ordered[b].id)|
    ensures k + m < |r.nodes| && Draws(f, r.nodes[k + m], Circles(NodesOf(f), ordered[b].id)[m])
  {
    var node := Circles(NodesOf(f), ordered[b].id)[m];
    BandIsDrawn(f, r, ordered, b);
    RowIs(NodesOf(f), GroupsOf(f), ordered[b], b, m);
    CircleIsDrawn(NodesOf(f), GroupsOf(f), ordered[b], node);
    RowDraws(f, r, RowFor(NodesOf(f), GroupIds(GroupsOf(f)), ordered[b].id, b), k, node, m);
  }

  /** Nothing else is laid out as a node. */
  lemma {:induction false} NodesCount(f: FoldedTerrain, r: Layout, ordered: seq<Group>)
    requires NodesLaid(f, r, ordered)
    ensures |r.nodes| == Before(NodesOf(f), ordered, |ordered|)
  {
    SortMembers(GroupFirst, GroupsOf(f));
    RowsAreFull(NodesOf(f), GroupsOf(f), GroupIds(GroupsOf(f)), ordered);
    SpotsCount(NodesOf(f), GroupIds(GroupsOf(f)), ordered, |ordered|);
  }

  // ---------- The edges ----------

  /** `p` is the centre of the last laid-out node with this id. */
  predicate CentreOf(r: Layout, id: Id, p: Point) {
    exists i :: 0 <= i < |r.nodes| && r.nodes[i].fnode.node.id == id && p == Point(r.nodes[i].x, r.nodes[i].y)
      && forall j :: i < j < |r.nodes| ==> r.nodes[j].fnode.node.id != id
  }

  predicate NoCircle(r: Layout, id: Id) {
    forall i :: 0 <= i < |r.nodes| ==> r.nodes[i].fnode.node.id != id
  }

  /** `p` is the middle of the top of the last band with this id. */
  predicate TopOf(r: Layout, id: Id, p: Point) {
    exists i :: 0 <= i < |r.groups| && r.groups[i].fgroup.group.id == id
      && p == Point(r.groups[i].x + r.groups[i].w / 2.0, r.groups[i].y)
      && forall j :: i < j < |r.groups| ==> r.groups[j].fgroup.group.id != id
  }

  /** Some node with this id is an endpoint of the service. */
  ghost predicate HasEndpoint(f: FoldedTerrain, id: Id, service: Id) {
    exists e :: e in f.nodes && e.node.id == id && EndpointOf(f, e, service)
  }

  /** `id` is an endpoint, and `p` the centre of its service. */
  ghost predicate ServiceOf(f: FoldedTerrain, r: Layout, id: Id, p: Point) {
    exists service :: service != "" && CentreOf(r, service, p) && HasEndpoint(f, id, service)
  }

  /** An end of an edge: the centre of the node, or else of the service of the endpoint, or else the top
      of the band. */
  ghost predicate EndsAt(f: FoldedTerrain, r: Layout, id: Id, p: Point) {
    || CentreOf(r, id, p)
    || (NoCircle(r, id) && ServiceOf(f, r, id, p))
    || (NoCircle(r, id) && (forall q :: !ServiceOf(f, r, id, q)) && TopOf(r, id, p))
  }

  /** The two ends of the edge are on the map, at different points. */
  ghost predicate Joins(f: FoldedTerrain, r: Layout, e: Edge) {
    exists a, b :: EndsAt(f, r, e.src, a) && EndsAt(f, r, e.dst, b) && a != b
  }

  lemma {:induction false} SpotIndex(spots: seq<Spot>, id: Id) returns (m: int)
    ensures -1 <= m < |spots| && forall j :: m < j < |spots| ==> spots[j].node.id != id
    ensures SpotAt(spots, id).Some? <==> m >= 0
    ensures m >= 0 ==> spots[m].node.id == id && SpotAt(spots, id) == Some(spots[m].at)
  {
    if spots == [] { return -1; }
    var n := |spots| - 1;
    if spots[n].node.id == id { return n; }
    m := SpotIndex(spots[..n], id);
  }

  lemma {:induction false} BandIndex(bands: seq<Band>, id: Id) returns (m: int)
    ensures -1 <= m < |bands| && forall j :: m < j < |bands| ==> bands[j].group.id != id
    ensures BandAt(bands, id).Some? <==> m >= 0
    ensures m >= 0 ==>
      bands[m].group.id == id && BandAt(bands, id) == Some(Point(bands[m].x + bands[m].w / 2.0, bands[m].y))
  {
    if bands == [] { return -1; }
    var n := |bands| - 1;
    if bands[n].group.id == id { return n; }
    m := BandIndex(bands[..n], id);
  }

  /** The laid-out nodes stand where the spots are. */
  ghost predicate AtSpots(r: Layout, spots: seq<Spot>) {
    && |r.nodes| == |spots|
    && forall i :: 0 <= i < |spots| ==>
      r.nodes[i].fnode.node.id == spots[i].node.id && Point(r.nodes[i].x, r.nodes[i].y) == spots[i].at
  }

  predicate BandIsAt(g: LaidOutGroup, b: Band) {
    g.fgroup.group == b.group && g.x == b.x && g.y == b.y && g.w == b.w
  }

  ghost predicate AtBands(r: Layout, bands: seq<Band>) {
    && |r.groups| == |bands|
    && forall i :: 0 <= i < |bands| ==> BandIsAt(r.groups[i], bands[i])
  }

  lemma {:induction false} CentreIs(r: Layout, spots: seq<Spot>, id: Id, p: Point)
    requires AtSpots(r, spots)
    ensures CentreOf(r, id, p) <==> SpotAt(spots, id) == Some(p)
    ensures NoCircle(r, id) <==> SpotAt(spots, id).None?
  {
    var m := SpotIndex(spots, id);
    if m >= 0 { assert r.nodes[m].fnode.node.id == id; }
  }

  lemma {:induction false} TopIs(r: Layout, bands: seq<Band>, id: Id, p: Point)
    requires AtBands(r, bands)
    ensures TopOf(r, id, p) <==> BandAt(bands, id) == Some(p)
  {
    var m := BandIndex(bands, id);
    forall i | 0 <= i < |bands| ensures BandIsAt(r.groups[i], bands[i]) {
    }
    if m >= 0 { assert r.groups[m].fgroup.group.id == id; }
  }

  lemma {:induction false} MembersAreDrawn(nodes: seq<Node>, groups: set<Id>, members: seq<Node>, band: nat, s: Spot)
    requires forall n :: n in members ==> n in Filter(nodes, IsDrawn(groups))
    requires s in RowSpots(nodes, groups, members, |members|, band)
    ensures s.node.id in DrawnIds(nodes, groups)
  {
    RowSpotsAt(nodes, groups, members, |members|, band);
    var i :| 0 <= i < |members| && RowSpots(nodes, groups, members, |members|, band)[i] == s;
    assert s.node == members[i];
  }

  lemma {:induction false} SpotsAreDrawn(nodes: seq<Node>, groups: set<Id>, ordered: seq<Group>, b: nat, s: Spot)
    requires b <= |ordered| && s in Spots(nodes, groups, ordered, b)
    ensures s.node.id in DrawnIds(nodes, groups)
  {
    var members := Members(nodes, groups, ordered[b - 1].id);
    if s in Spots(nodes, groups, ordered, b - 1) {
      SpotsAreDrawn(nodes, groups, ordered, b - 1, s);
    } else {
      MembersAreDrawn(nodes, groups, members, b - 1, s);
    }
  }

  /** `spots` are those of the nodes of `f`. */
  ghost predicate SpotsOf(f: FoldedTerrain, spots: seq<Spot>) {
    var ordered := Ordered(GroupsOf(f));
    spots == Spots(NodesOf(f), GroupIds(GroupsOf(f)), ordered, |ordered|)
  }

  lemma {:induction false} FoundIsDrawn(f: FoldedTerrain, spots: seq<Spot>, id: Id)
    requires SpotsOf(f, spots)
    ensures SpotAt(spots, id).Some? ==> id in DrawnIds(NodesOf(f), GroupIds(GroupsOf(f)))
  {
    var m := SpotIndex(spots, id);
    var ordered := Ordered(GroupsOf(f));
    if m >= 0 { SpotsAreDrawn(NodesOf(f), GroupIds(GroupsOf(f)), ordered, |ordered|, spots[m]); }
  }

  function CollapsedOf(f: FoldedTerrain): set<Id> { Collapsed(NodesOf(f), GroupIds(GroupsOf(f))) }

  lemma {:induction false} UnderNode(f: FoldedTerrain, n: Node)
    ensures n in NodesOf(f) <==> exists e :: e in f.nodes && e.node == n
  {
    if e :| e in f.nodes && e.node == n {
      var i :| 0 <= i < |f.nodes| && f.nodes[i] == e;
      assert NodesOf(f)[i] == n;
    }
    if n in NodesOf(f) {
      var i :| 0 <= i < |NodesOf(f)| && NodesOf(f)[i] == n;
      assert f.nodes[i].node == n;
    }
  }

  lemma {:induction false} EndpointCollapses(f: FoldedTerrain, e: FoldedNode, service: Id)
    requires service in DrawnIds(NodesOf(f), GroupIds(GroupsOf(f)))
    requires e in f.nodes && EndpointOf(f, e, service)
    ensures e.node.id in CollapsedOf(f) && EndpointParentId(e.node.id) == service
  {
    ParentIs(e.node.id, service);
    UnderNode(f, e.node);
    GroupIdsAre(GroupsOf(f), e.node.group);
    assert e.node in Filter(NodesOf(f), IsEndpoint(GroupIds(GroupsOf(f))));
  }

  lemma {:induction false} CollapsedHasEndpoint(f: FoldedTerrain, id: Id)
    requires id in CollapsedOf(f)
    ensures HasEndpoint(f, id, EndpointParentId(id))
  {
    var n :| n in Filter(NodesOf(f), IsEndpoint(GroupIds(GroupsOf(f)))) && n.id == id;
    UnderNode(f, n);
    GroupIdsAre(GroupsOf(f), n.group);
    ParentIs(id, EndpointParentId(id));
    var e :| e in f.nodes && e.node == n;
    assert EndpointOf(f, e, EndpointParentId(id));
  }

  lemma {:induction false} EndpointIsCollapsed(f: FoldedTerrain, id: Id, service: Id)
    requires service in DrawnIds(NodesOf(f), GroupIds(GroupsOf(f)))
    ensures id in CollapsedOf(f) && EndpointParentId(id) == service <==> HasEndpoint(f, id, service)
  {
    if e :| e in f.nodes && e.node.id == id && EndpointOf(f, e, service) {
      EndpointCollapses(f, e, service);
    }
    if id in CollapsedOf(f) { CollapsedHasEndpoint(f, id); }
  }

  lemma {:induction false} ServiceIs(f: FoldedTerrain, r: Layout, spots: seq<Spot>, id: Id, p: Point)
    requires AtSpots(r, spots) && SpotsOf(f, spots)
    ensures ServiceOf(f, r, id, p) <==>
      id in CollapsedOf(f) && EndpointParentId(id) != "" && SpotAt(spots, EndpointParentId(id)) == Some(p)
  {
    var parent := EndpointParentId(id);
    CentreIs(r, spots, parent, p);
    FoundIsDrawn(f, spots, parent);
    if SpotAt(spots, parent).Some? { EndpointIsCollapsed(f, id, parent); }
    if service :| service != "" && CentreOf(r, service, p) && HasEndpoint(f, id, service) {
      CentreIs(r, spots, service, p);
      FoundIsDrawn(f, spots, service);
      EndpointIsCollapsed(f, id, service);
    }
  }

  lemma {:induction false} EndIs(f: FoldedTerrain, r: Layout, spots: seq<Spot>, bands: seq<Band>, id: Id, p: Point)
    requires AtSpots(r, spots) && AtBands(r, bands) && SpotsOf(f, spots)
    ensures EndsAt(f, r, id, p) <==> At(spots, bands, CollapsedOf(f), id) == Some(p)
  {
    CentreIs(r, spots, id, p);
    TopIs(r, bands, id, p);
    forall q ensures ServiceOf(f, r, id, q) <==>
      id in CollapsedOf(f) && EndpointParentId(id) != "" && SpotAt(spots, EndpointParentId(id)) == Some(q)
    {
      ServiceIs(f, r, spots, id, q);
    }
  }

  function Joined(spots: seq<Spot>, bands: seq<Band>, collapsed: set<Id>): Edge -> bool {
    (e: Edge) =>
      var a, b := At(spots, bands, collapsed, e.src), At(spots, bands, collapsed, e.dst);
      a.Some? && b.Some? && a != b
  }

  function EdgeOfLine(): Line -> Edge { (l: Line) => l.edge }

  predicate LineIs(spots: seq<Spot>, bands: seq<Band>, collapsed: set<Id>, l: Line) {
    At(spots, bands, collapsed, l.edge.src) == Some(l.from) && At(spots, bands, collapsed, l.edge.dst) == Some(l.to)
  }

  /** The line of an edge, if it has one. */
  function LineOf(spots: seq<Spot>, bands: seq<Band>, collapsed: set<Id>, e: Edge): seq<Line> {
    if Joined(spots, bands, collapsed)(e) then
      [Line(e, At(spots, bands, collapsed, e.src).value, At(spots, bands, collapsed, e.dst).value)]
    else []
  }

  lemma {:induction false} LinesPush(spots: seq<Spot>, bands: seq<Band>, collapsed: set<Id>, front: seq<Edge>, e: Edge)
    ensures Lines(spots, bands, collapsed, front + [e]) ==
      Lines(spots, bands, collapsed, front) + LineOf(spots, bands, collapsed, e)
  {
    assert (front + [e])[..|front|] == front;
  }

  lemma {:induction false} MapPlus<S, T>(a: seq<S>, b: seq<S>, f: S -> T)
    ensures Map(a + b, f) == Map(a, f) + Map(b, f)
  {
  }

  lemma {:induction false} LineOfIs(spots: seq<Spot>, bands: seq<Band>, collapsed: set<Id>, e: Edge)
    ensures Map(LineOf(spots, bands, collapsed, e), EdgeOfLine()) == Kept(e, Joined(spots, bands, collapsed))
    ensures forall l :: l in LineOf(spots, bands, collapsed, e) ==> LineIs(spots, bands, collapsed, l)
  {
  }

  lemma {:induction false} FilterPush<T>(s: seq<T>, x: T, keep: T -> bool)
    ensures Filter(s + [x], keep) == Filter(s, keep) + Kept(x, keep)
  {
    FilterAppend(s, [x], keep);
    FilterCons(x, [], keep);
    assert [x] + [] == [x] && Kept(x, keep) + [] == Kept(x, keep);
  }

  lemma {:induction false} LinesAreOn(spots: seq<Spot>, bands: seq<Band>, collapsed: set<Id>, edges: seq<Edge>,
      front: seq<Edge>, e: Edge)
    requires edges == front + [e]
    requires Map(Lines(spots, bands, collapsed, front), EdgeOfLine()) == Filter(front, Joined(spots, bands, collapsed))
    requires forall l :: l in Lines(spots, bands, collapsed, front) ==> LineIs(spots, bands, collapsed, l)
    ensures Map(Lines(spots, bands, collapsed, edges), EdgeOfLine()) == Filter(edges, Joined(spots, bands, collapsed))
    ensures forall l :: l in Lines(spots, bands, collapsed, edges) ==> LineIs(spots, bands, collapsed, l)
  {
    LinesPush(spots, bands, collapsed, front, e);
    MapPlus(Lines(spots, bands, collapsed, front), LineOf(spots, bands, collapsed, e), EdgeOfLine());
    LineOfIs(spots, bands, collapsed, e);
    FilterPush(front, e, Joined(spots, bands, collapsed));
  }

  lemma {:induction false} NoLines(spots: seq<Spot>, bands: seq<Band>, collapsed: set<Id>)
    ensures Lines(spots, bands, collapsed, []) == [] && Map([], EdgeOfLine()) == []
    ensures Filter([], Joined(spots, bands, collapsed)) == []
  {
  }

  /** The lines are the edges with two different ends, in order, each from its source to its target. */
  lemma {:induction false} LinesAre(spots: seq<Spot>, bands: seq<Band>, collapsed: set<Id>, edges: seq<Edge>)
    ensures Map(Lines(spots, bands, collapsed, edges), EdgeOfLine()) == Filter(edges, Joined(spots, bands, collapsed))
    ensures forall l :: l in Lines(spots, bands, collapsed, edges) ==> LineIs(spots, bands, collapsed, l)
    decreases |edges|
  {
    if edges == [] {
      NoLines(spots, bands, collapsed);
    } else {
      var front, e := edges[..|edges| - 1], edges[|edges| - 1];
      LinesAre(spots, bands, collapsed, front);
      LinesAreOn(spots, bands, collapsed, edges, front, e);
    }
  }

  function EdgeOfLaid(): LaidOutEdge -> Edge { (e: LaidOutEdge) => e.fedge.edge }

  ghost function JoinsIn(f: FoldedTerrain, r: Layout): Edge -> bool { (e: Edge) => Joins(f, r, e) }

  lemma {:induction false} JoinsAre(f: FoldedTerrain, r: Layout, spots: seq<Spot>, bands: seq<Band>, e: Edge)
    requires AtSpots(r, spots) && AtBands(r, bands) && SpotsOf(f, spots)
    ensures Joins(f, r, e) <==> Joined(spots, bands, CollapsedOf(f))(e)
  {
    forall p ensures EndsAt(f, r, e.src, p) <==> At(spots, bands, CollapsedOf(f), e.src) == Some(p) {
      EndIs(f, r, spots, bands, e.src, p);
    }
    forall p ensures EndsAt(f, r, e.dst, p) <==> At(spots, bands, CollapsedOf(f), e.dst) == Some(p) {
      EndIs(f, r, spots, bands, e.dst, p);
    }
  }

  lemma {:induction false} LaidAt(f: FoldedTerrain, r: Layout)
    requires LaysOut(f, r)
    ensures var ordered := Ordered(GroupsOf(f));
      AtSpots(r, Spots(NodesOf(f), GroupIds(GroupsOf(f)), ordered, |ordered|)) && AtBands(r, Bands(ordered, |ordered|))
  {
    var ordered := Ordered(GroupsOf(f));
    var spots, bands := Spots(NodesOf(f), GroupIds(GroupsOf(f)), ordered, |ordered|), Bands(ordered, |ordered|);
    forall i | 0 <= i < |spots|
      ensures r.nodes[i].fnode.node.id == spots[i].node.id && Point(r.nodes[i].x, r.nodes[i].y) == spots[i].at
    {
      assert NodeAt(f, r.nodes[i], spots[i]);
    }
    forall i | 0 <= i < |bands| ensures BandIsAt(r.groups[i], bands[i]) {
      assert GroupAt(f, r.groups[i], bands[i]);
    }
  }

  ghost predicate RunsBetween(f: FoldedTerrain, r: Layout, e: LaidOutEdge) {
    && EndsAt(f, r, e.fedge.edge.src, Point(e.x1, e.y1))
    && EndsAt(f, r, e.fedge.edge.dst, Point(e.x2, e.y2))
  }

  /** The edges drawn are those whose ends are on the map at different points, in order; each is drawn
      from its source to its target. */
  lemma {:induction false} EdgesAre(f: FoldedTerrain, r: Layout)
    requires LaysOut(f, r)
    ensures Map(r.edges, EdgeOfLaid()) == Filter(EdgesOf(f), JoinsIn(f, r))
    ensures forall i :: 0 <= i < |r.edges| ==> r.edges[i].fedge in f.edges && RunsBetween(f, r, r.edges[i])
  {
    var ordered := Ordered(GroupsOf(f));
    var spots, bands := Spots(NodesOf(f), GroupIds(GroupsOf(f)), ordered, |ordered|), Bands(ordered, |ordered|);
    var lines := Lines(spots, bands, CollapsedOf(f), EdgesOf(f));
    LaidAt(f, r);
    LinesAre(spots, bands, CollapsedOf(f), EdgesOf(f));
    forall e ensures JoinsIn(f, r)(e) == Joined(spots, bands, CollapsedOf(f))(e) {
      JoinsAre(f, r, spots, bands, e);
    }
    FilterSame(EdgesOf(f), JoinsIn(f, r), Joined(spots, bands, CollapsedOf(f)));
    forall i | 0 <= i < |r.edges| ensures r.edges[i].fedge in f.edges && RunsBetween(f, r, r.edges[i])
      ensures Map(r.edges, EdgeOfLaid())[i] == Map(lines, EdgeOfLine())[i]
    {
      assert EdgeAt(f, r.edges[i], lines[i]) && LineIs(spots, bands, CollapsedOf(f), lines[i]);
      EndIs(f, r, spots, bands, lines[i].edge.src, lines[i].from);
      EndIs(f, r, spots, bands, lines[i].edge.dst, lines[i].to);
    }
    assert |r.edges| == |lines|;
  }
}
