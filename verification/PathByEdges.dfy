/** The probe path, edge by edge (live-trace/terrain-fold.ts, `probingPathEdgeIds`). */
module PathByEdges {
  import opened TerrainFold
  import opened ProbePath

  /** An edge of the list leads from `n` to a place that is itself on the way to a seed. */
  ghost predicate GoesOn(seeds: set<Id>, edges: seq<Edge>, agents: set<Id>, n: Id) {
    exists i :: 0 <= i < |edges| && edges[i].src == n && Upstream(seeds, edges, agents, edges[i].dst)
  }

  lemma {:induction false} UpstreamGoesOn(seeds: set<Id>, edges: seq<Edge>, agents: set<Id>, n: Id)
    requires Upstream(seeds, edges, agents, n)
    ensures n !in agents && (n in seeds || GoesOn(seeds, edges, agents, n))
  {
    var walk :| Walk(seeds, edges, agents, walk) && walk[|walk| - 1] == n;
    if |walk| > 1 {
      var front := walk[..|walk| - 1];
      assert Walk(seeds, edges, agents, front) && front[|front| - 1] == walk[|walk| - 2];
      assert Leads(edges, n, walk[|walk| - 2]);
      var e :| e in edges && e.src == n && e.dst == walk[|walk| - 2];
      var i :| 0 <= i < |edges| && edges[i] == e;
    }
  }

  /** A place is on the way exactly if it is no agent and is a seed or has an edge that goes on. */
  lemma {:induction false} UpstreamSays(seeds: set<Id>, edges: seq<Edge>, agents: set<Id>, n: Id)
    ensures Upstream(seeds, edges, agents, n) <==> n !in agents && (n in seeds || GoesOn(seeds, edges, agents, n))
  {
    if Upstream(seeds, edges, agents, n) { UpstreamGoesOn(seeds, edges, agents, n); }
    if n !in agents {
      if n in seeds { UpstreamSeed(seeds, edges, agents, n); }
      if i :| 0 <= i < |edges| && edges[i].src == n && Upstream(seeds, edges, agents, edges[i].dst) {
        UpstreamStep(seeds, edges, agents, edges[i]);
      }
    }
  }

  ghost predicate OnTheWay(seeds: set<Id>, edges: seq<Edge>, agents: set<Id>, n: Id) {
    n !in agents && (n in seeds || GoesOn(seeds, edges, agents, n))
  }

  /** An edge is on the path exactly if it ends on the way to a seed: it ends at a seed, or an edge on the path
      starts where it ends; and never at an agent. */
  lemma {:induction false} PathSays(seeds: set<Id>, edges: seq<Edge>, agents: set<Id>, id: Id)
    ensures id in PathIds(seeds, edges, agents) <==>
      exists i :: 0 <= i < |edges| && edges[i].id == id && OnTheWay(seeds, edges, agents, edges[i].dst)
  {
    if e :| e in edges && Upstream(seeds, edges, agents, e.dst) && e.id == id {
      UpstreamSays(seeds, edges, agents, e.dst);
      var i :| 0 <= i < |edges| && edges[i] == e;
    }
    if i :| 0 <= i < |edges| && edges[i].id == id && OnTheWay(seeds, edges, agents, edges[i].dst) {
      UpstreamSays(seeds, edges, agents, edges[i].dst);
      assert edges[i] in edges;
    }
  }

  /** Where no edge ends at a seed, no edge is on the path. */
  lemma {:induction false} NoneLeadsThere(seeds: set<Id>, edges: seq<Edge>, agents: set<Id>)
    requires forall i :: 0 <= i < |edges| ==> edges[i].dst !in seeds
    ensures PathIds(seeds, edges, agents) == {}
  {
    var closed := seeds;
    forall e | e in edges ensures !Upstream(seeds, edges, agents, e.dst) {
      if walk :| Walk(seeds, edges, agents, walk) && walk[|walk| - 1] == e.dst {
        ClosedContains(seeds, edges, agents, closed, walk);
      }
    }
  }
}
