/** The fold over a terrain log, said without its machinery (live-trace/terrain-fold.ts, `foldTerrain`):
    by positions in the log and in the base graph, and by the names of the states. */
module FoldByIndex {
  import opened Prelude
  import opened TerrainFold

  /** The update at position `i` is taken in by a fold to `k`. */
  predicate Taken(t: Terrain, k: int, i: int) {
    0 <= i <= k && i < |t.updates|
  }

  predicate SetsNode(u: Update, id: Id, s: NodeState) {
    u.targetKind == NodeTarget && u.targetId == id && u.state == Some(s)
  }

  predicate SetsGroup(u: Update, id: Id) {
    u.targetKind == GroupTarget && u.targetId == id && u.discovered
  }

  predicate SetsEdge(u: Update, id: Id) {
    u.targetKind == EdgeTarget && u.targetId == id && u.active
  }

  /** Some update that is taken in sets the node to `s`. */
  ghost predicate NodeSet(t: Terrain, k: int, id: Id, s: NodeState) {
    exists i :: Taken(t, k, i) && SetsNode(t.updates[i], id, s)
  }

  ghost predicate GroupSet(t: Terrain, k: int, id: Id) {
    exists i :: Taken(t, k, i) && SetsGroup(t.updates[i], id)
  }

  ghost predicate EdgeSet(t: Terrain, k: int, id: Id) {
    exists i :: Taken(t, k, i) && SetsEdge(t.updates[i], id)
  }

  /** The last node of the base graph with this id. */
  predicate LastNode(t: Terrain, m: int, id: Id) {
    0 <= m < |t.nodes| && t.nodes[m].id == id && forall j :: m < j < |t.nodes| ==> t.nodes[j].id != id
  }

  predicate LastGroup(t: Terrain, m: int, id: Id) {
    0 <= m < |t.groups| && t.groups[m].id == id && forall j :: m < j < |t.groups| ==> t.groups[j].id != id
  }

  predicate LastEdge(t: Terrain, m: int, id: Id) {
    0 <= m < |t.edges| && t.edges[m].id == id && forall j :: m < j < |t.edges| ==> t.edges[j].id != id
  }

  /** Completed if the base or any update taken in says so; defined if they say nothing more. */
  ghost predicate NodeIs(t: Terrain, k: int, id: Id, s: NodeState) {
    exists m :: LastNode(t, m, id) &&
      match s
      case Completed => t.nodes[m].state == Completed || NodeSet(t, k, id, Completed)
      case Discovered =>
        && t.nodes[m].state != Completed && !NodeSet(t, k, id, Completed)
        && (t.nodes[m].state == Discovered || NodeSet(t, k, id, Discovered))
      case Defined => t.nodes[m].state == Defined && !NodeSet(t, k, id, Discovered) && !NodeSet(t, k, id, Completed)
  }

  ghost predicate GroupIs(t: Terrain, k: int, id: Id, discovered: bool) {
    exists m :: LastGroup(t, m, id) && (discovered <==> t.groups[m].discovered || GroupSet(t, k, id))
  }

  predicate IsAgent(t: Terrain, id: Id) {
    exists n :: 0 <= n < |t.nodes| && t.nodes[n].id == id && t.nodes[n].kind == "agent"
  }

  /** The node is there, and discovered or completed. */
  ghost predicate IsReached(t: Terrain, k: int, id: Id) {
    NodeIs(t, k, id, Discovered) || NodeIs(t, k, id, Completed)
  }

  /** The edge at position `e` runs from an agent to a reached node, and only agents lead there. */
  ghost predicate Arrives(t: Terrain, k: int, e: int) {
    && 0 <= e < |t.edges|
    && IsAgent(t, t.edges[e].src)
    && IsReached(t, k, t.edges[e].dst)
    && forall x :: 0 <= x < |t.edges| && t.edges[x].dst == t.edges[e].dst ==> IsAgent(t, t.edges[x].src)
  }

  ghost predicate EdgeArrives(t: Terrain, k: int, id: Id) {
    exists e :: Arrives(t, k, e) && t.edges[e].id == id
  }

  ghost predicate EdgeIs(t: Terrain, k: int, id: Id, active: bool) {
    exists m :: LastEdge(t, m, id) &&
      (active <==> t.edges[m].active || EdgeSet(t, k, id) || EdgeArrives(t, k, id))
  }

  /** Everything the fold to `k` shows. */
  ghost predicate ShowsAt(t: Terrain, k: int, f: FoldedTerrain) {
    && |f.nodes| == |t.nodes| && |f.groups| == |t.groups| && |f.edges| == |t.edges|
    && (forall i :: 0 <= i < |t.nodes| ==>
      f.nodes[i].node == t.nodes[i] && NodeIs(t, k, t.nodes[i].id, f.nodes[i].state))
    && (forall i :: 0 <= i < |t.groups| ==>
      f.groups[i].group == t.groups[i] && GroupIs(t, k, t.groups[i].id, f.groups[i].discovered))
    && (forall i :: 0 <= i < |t.edges| ==>
      f.edges[i].edge == t.edges[i] && EdgeIs(t, k, t.edges[i].id, f.edges[i].active))
  }

  // ---------- The base ----------

  lemma {:induction false} NodeBaseIs(nodes: seq<Node>, id: Id) returns (m: int)
    ensures -1 <= m < |nodes| && forall j :: m < j < |nodes| ==> nodes[j].id != id
    ensures id in NodeBase(nodes) <==> m >= 0
    ensures id in NodeBase(nodes) ==> nodes[m].id == id && NodeBase(nodes)[id] == nodes[m].state
  {
    if nodes == [] { return -1; }
    var n := |nodes| - 1;
    if nodes[n].id == id { return n; }
    m := NodeBaseIs(nodes[..n], id);
  }

  lemma {:induction false} GroupBaseIs(groups: seq<Group>, id: Id) returns (m: int)
    ensures -1 <= m < |groups| && forall j :: m < j < |groups| ==> groups[j].id != id
    ensures id in GroupBase(groups) <==> m >= 0
    ensures id in GroupBase(groups) ==> groups[m].id == id && GroupBase(groups)[id] == groups[m].discovered
  {
    if groups == [] { return -1; }
    var n := |groups| - 1;
    if groups[n].id == id { return n; }
    m := GroupBaseIs(groups[..n], id);
  }

  lemma {:induction false} EdgeBaseIs(edges: seq<Edge>, id: Id) returns (m: int)
    ensures -1 <= m < |edges| && forall j :: m < j < |edges| ==> edges[j].id != id
    ensures id in EdgeBase(edges) <==> m >= 0
    ensures id in EdgeBase(edges) ==> edges[m].id == id && EdgeBase(edges)[id] == edges[m].active
  {
    if edges == [] { return -1; }
    var n := |edges| - 1;
    if edges[n].id == id { return n; }
    m := EdgeBaseIs(edges[..n], id);
  }

  // ---------- The prefix ----------

  /** How many updates a fold to `k` takes in: none before 0, `k + 1` within the log, all of it after. */
  lemma {:induction false} PrefixLength(updates: seq<Update>, k: int)
    ensures |Prefix(updates, k)| == if k < 0 then 0 else if k < |updates| then k + 1 else |updates|
    ensures Prefix(updates, k) <= updates
  {
  }

  lemma {:induction false} PrefixIsTaken(t: Terrain, k: int, u: Update)
    ensures u in Prefix(t.updates, k) <==> exists i :: Taken(t, k, i) && t.updates[i] == u
  {
    var p := Prefix(t.updates, k);
    PrefixLength(t.updates, k);
    if u in p {
      var i :| 0 <= i < |p| && p[i] == u;
      assert Taken(t, k, i) && t.updates[i] == u;
    }
    if i :| Taken(t, k, i) && t.updates[i] == u {
      assert p[i] == u;
    }
  }

  lemma {:induction false} NodeSetIs(t: Terrain, k: int, id: Id, s: NodeState)
    ensures NodeSet(t, k, id, s) <==> exists u :: u in Prefix(t.updates, k) && SetsNode(u, id, s)
  {
    if i :| Taken(t, k, i) && SetsNode(t.updates[i], id, s) {
      PrefixIsTaken(t, k, t.updates[i]);
    }
    if u :| u in Prefix(t.updates, k) && SetsNode(u, id, s) {
      PrefixIsTaken(t, k, u);
      var i :| Taken(t, k, i) && t.updates[i] == u;
      assert SetsNode(t.updates[i], id, s);
    }
  }

  lemma {:induction false} GroupSetIs(t: Terrain, k: int, id: Id)
    ensures GroupSet(t, k, id) <==> id in Revealed(Prefix(t.updates, k))
  {
    if i :| Taken(t, k, i) && SetsGroup(t.updates[i], id) {
      PrefixIsTaken(t, k, t.updates[i]);
    }
    if u :| u in Prefix(t.updates, k) && SetsGroup(u, id) {
      PrefixIsTaken(t, k, u);
      var i :| Taken(t, k, i) && t.updates[i] == u;
      assert SetsGroup(t.updates[i], id);
    }
  }

  lemma {:induction false} EdgeSetIs(t: Terrain, k: int, id: Id)
    ensures EdgeSet(t, k, id) <==> id in Activated(Prefix(t.updates, k))
  {
    if i :| Taken(t, k, i) && SetsEdge(t.updates[i], id) {
      PrefixIsTaken(t, k, t.updates[i]);
    }
    if u :| u in Prefix(t.updates, k) && SetsEdge(u, id) {
      PrefixIsTaken(t, k, u);
      var i :| Taken(t, k, i) && t.updates[i] == u;
      assert SetsEdge(t.updates[i], id);
    }
  }

  // ---------- The three maps ----------

  lemma {:induction false} JoinIs(base: NodeState, ups: seq<Update>, id: Id, s: NodeState)
    requires IsJoin(base, ups, id, s)
    ensures s == Completed <==> base == Completed || exists u :: u in ups && SetsNode(u, id, Completed)
    ensures s == Defined <==>
      base == Defined && forall u :: u in ups ==> !SetsNode(u, id, Discovered) && !SetsNode(u, id, Completed)
  {
    if u :| u in ups && SetsNode(u, id, Completed) {
      assert Offers(u, id) && u.state.value.Rank() <= s.Rank();
    }
    if u :| u in ups && SetsNode(u, id, Discovered) {
      assert Offers(u, id) && u.state.value.Rank() <= s.Rank();
    }
    if s != base {
      var u :| u in ups && Offers(u, id) && u.state.value == s;
      assert SetsNode(u, id, s);
    }
  }

  lemma {:induction false} StatesIs(t: Terrain, k: int, id: Id, s: NodeState)
    ensures NodeIs(t, k, id, s) <==> id in States(t, k) && States(t, k)[id] == s
  {
    var m := NodeBaseIs(t.nodes, id);
    assert forall j :: LastNode(t, j, id) ==> j == m && m >= 0;
    if id in NodeBase(t.nodes) {
      assert LastNode(t, m, id);
      var base, ups := NodeBase(t.nodes)[id], Prefix(t.updates, k);
      ClimbIsJoin(base, ups, id);
      JoinIs(base, ups, id, Climb(base, ups, id));
      NodeSetIs(t, k, id, Discovered);
      NodeSetIs(t, k, id, Completed);
      if base == Defined && Climb(base, ups, id) == Discovered {
        var u :| u in ups && Offers(u, id) && u.state.value == Discovered;
        assert SetsNode(u, id, Discovered);
      }
    }
  }

  lemma {:induction false} ShownIs(t: Terrain, k: int, id: Id, d: bool)
    ensures GroupIs(t, k, id, d) <==> id in Shown(t, k) && Shown(t, k)[id] == d
  {
    var m := GroupBaseIs(t.groups, id);
    assert forall j :: LastGroup(t, j, id) ==> j == m && m >= 0;
    GroupSetIs(t, k, id);
    if id in GroupBase(t.groups) { assert LastGroup(t, m, id); }
  }

  lemma {:induction false} AgentIs(t: Terrain, id: Id)
    ensures IsAgent(t, id) <==> id in AgentIds(t.nodes)
  {
    if n :| n in t.nodes && n.kind == "agent" && n.id == id {
      var i :| 0 <= i < |t.nodes| && t.nodes[i] == n;
    }
  }

  lemma {:induction false} ArrivesIs(t: Terrain, k: int, e: int)
    requires 0 <= e < |t.edges|
    ensures Arrives(t, k, e) <==> Arrival(t.edges, AgentIds(t.nodes), States(t, k), t.edges[e])
  {
    AgentIs(t, t.edges[e].src);
    StatesIs(t, k, t.edges[e].dst, Discovered);
    StatesIs(t, k, t.edges[e].dst, Completed);
    forall x | 0 <= x < |t.edges| ensures IsAgent(t, t.edges[x].src) <==> t.edges[x].src in AgentIds(t.nodes) {
      AgentIs(t, t.edges[x].src);
    }
    assert forall x :: x in t.edges ==> exists i :: 0 <= i < |t.edges| && t.edges[i] == x;
  }

  lemma {:induction false} EdgeArrivesIs(t: Terrain, k: int, id: Id)
    ensures EdgeArrives(t, k, id) <==> id in Arrivals(t, States(t, k))
  {
    if e :| Arrives(t, k, e) && t.edges[e].id == id {
      ArrivesIs(t, k, e);
      assert t.edges[e] in t.edges;
    }
    if x :| x in t.edges && Arrival(t.edges, AgentIds(t.nodes), States(t, k), x) && x.id == id {
      var e :| 0 <= e < |t.edges| && t.edges[e] == x;
      ArrivesIs(t, k, e);
    }
  }

  lemma {:induction false} LitIs(t: Terrain, k: int, id: Id, a: bool)
    ensures EdgeIs(t, k, id, a) <==> id in Lit(t, k) && Lit(t, k)[id] == a
  {
    var m := EdgeBaseIs(t.edges, id);
    assert forall j :: LastEdge(t, j, id) ==> j == m && m >= 0;
    EdgeSetIs(t, k, id);
    EdgeArrivesIs(t, k, id);
    if id in EdgeBase(t.edges) { assert LastEdge(t, m, id); }
  }

  // ---------- The fold ----------

  /** The fold to `k` shows the base graph and the updates at positions 0 to `k`, that one included. */
  lemma {:induction false} FoldIsByIndex(t: Terrain, k: int, f: FoldedTerrain)
    ensures FoldsTo(t, k, f) <==> ShowsAt(t, k, f)
  {
    if |f.nodes| == |t.nodes| && |f.groups| == |t.groups| && |f.edges| == |t.edges| {
      forall i | 0 <= i < |t.nodes|
        ensures NodeShows(t.nodes[i], f.nodes[i], States(t, k)) <==>
          f.nodes[i].node == t.nodes[i] && NodeIs(t, k, t.nodes[i].id, f.nodes[i].state)
      {
        StatesIs(t, k, t.nodes[i].id, f.nodes[i].state);
      }
      forall i | 0 <= i < |t.groups|
        ensures GroupShows(t.groups[i], f.groups[i], Shown(t, k)) <==>
          f.groups[i].group == t.groups[i] && GroupIs(t, k, t.groups[i].id, f.groups[i].discovered)
      {
        ShownIs(t, k, t.groups[i].id, f.groups[i].discovered);
      }
      forall i | 0 <= i < |t.edges|
        ensures EdgeShows(t.edges[i], f.edges[i], Lit(t, k)) <==>
          f.edges[i].edge == t.edges[i] && EdgeIs(t, k, t.edges[i].id, f.edges[i].active)
      {
        LitIs(t, k, t.edges[i].id, f.edges[i].active);
      }
    }
  }

  /** From the last position on, every fold takes in the whole log. */
  lemma {:induction false} LatestTakesAll(t: Terrain, k: int, f: FoldedTerrain)
    requires k >= |t.updates| - 1
    ensures forall i :: 0 <= i < |t.updates| <==> Taken(t, k, i)
    ensures FoldsTo(t, k, f) <==> FoldsTo(t, |t.updates| - 1, f)
  {
    PrefixLength(t.updates, k);
    PrefixLength(t.updates, |t.updates| - 1);
    assert Prefix(t.updates, k) == t.updates == Prefix(t.updates, |t.updates| - 1);
  }

  /** What pulses: the pulsed ids, each under every kind of element that has it. */
  lemma {:induction false} PulseIs(t: Terrain, ids: set<Id>, id: Id)
    ensures id in Pulsed(t, Some(ids)).nodes <==> id in ids && exists n :: 0 <= n < |t.nodes| && t.nodes[n].id == id
    ensures id in Pulsed(t, Some(ids)).groups <==> id in ids && exists g :: 0 <= g < |t.groups| && t.groups[g].id == id
    ensures id in Pulsed(t, Some(ids)).edges <==> id in ids && exists e :: 0 <= e < |t.edges| && t.edges[e].id == id
    ensures Pulsed(t, None) == Pulse({}, {}, {})
  {
    if n :| n in t.nodes && n.id == id { var i :| 0 <= i < |t.nodes| && t.nodes[i] == n; }
    if g :| g in t.groups && g.id == id { var i :| 0 <= i < |t.groups| && t.groups[i] == g; }
    if e :| e in t.edges && e.id == id { var i :| 0 <= i < |t.edges| && t.edges[i] == e; }
  }
}
