/** The probe path (live-trace/terrain-fold.ts, `probingPathEdgeIds`): the edges an agent traversed
    to reach the seeds, found by walking inbound edges backwards and stopping at agents. */
module ProbePath {
  import opened TerrainFold

  ghost predicate Leads(edges: seq<Edge>, src: Id, dst: Id) {
    exists e :: e in edges && e.src == src && e.dst == dst
  }

  /** `walk` starts at a seed and goes backwards along edges, through non-agent nodes only. */
  ghost predicate Walk(seeds: set<Id>, edges: seq<Edge>, agents: set<Id>, walk: seq<Id>) {
    && walk != []
    && walk[0] in seeds
    && (forall i :: 0 <= i < |walk| ==> walk[i] !in agents)
    && (forall i :: 0 < i < |walk| ==> Leads(edges, walk[i], walk[i - 1]))
  }

  /** `n` lies upstream of a seed, with no agent in between. */
  ghost predicate Upstream(seeds: set<Id>, edges: seq<Edge>, agents: set<Id>, n: Id) {
    exists walk :: Walk(seeds, edges, agents, walk) && walk[|walk| - 1] == n
  }

  /** The ids of the edges whose target is upstream of a seed. */
  ghost function PathIds(seeds: set<Id>, edges: seq<Edge>, agents: set<Id>): set<Id> {
    set e | e in edges && Upstream(seeds, edges, agents, e.dst) :: e.id
  }

  /** Every node that some list can name: the seeds and the sources of edges. */
  function Universe(seeds: seq<Id>, edges: seq<Edge>): set<Id> {
    (set n | n in seeds) + set e | e in edges :: e.src
  }

  ghost function Elements(seeds: seq<Id>): set<Id> {
    set n | n in seeds
  }

  lemma {:induction false} UpstreamSeed(seeds: set<Id>, edges: seq<Edge>, agents: set<Id>, n: Id)
    requires n in seeds && n !in agents
    ensures Upstream(seeds, edges, agents, n)
  {
    assert Walk(seeds, edges, agents, [n]) && [n][|[n]| - 1] == n;
  }

  lemma {:induction false} UpstreamStep(seeds: set<Id>, edges: seq<Edge>, agents: set<Id>, e: Edge)
    requires Upstream(seeds, edges, agents, e.dst) && e in edges && e.src !in agents
    ensures Upstream(seeds, edges, agents, e.src)
  {
    var walk :| Walk(seeds, edges, agents, walk) && walk[|walk| - 1] == e.dst;
    var longer := walk + [e.src];
    assert Leads(edges, e.src, e.dst);
    assert Walk(seeds, edges, agents, longer) && longer[|longer| - 1] == e.src;
  }

  /** A set that has the non-agent seeds and is closed under stepping back contains all that is
      upstream. */
  lemma {:induction false} ClosedContains(seeds: set<Id>, edges: seq<Edge>, agents: set<Id>, closed: set<Id>,
      walk: seq<Id>)
    requires forall n :: n in seeds && n !in agents ==> n in closed
    requires forall e :: e in edges && e.dst in closed && e.src !in agents ==> e.src in closed
    requires Walk(seeds, edges, agents, walk)
    ensures walk[|walk| - 1] in closed
  {
    if |walk| > 1 {
      var front := walk[..|walk| - 1];
      assert Walk(seeds, edges, agents, front);
      ClosedContains(seeds, edges, agents, closed, front);
      assert Leads(edges, walk[|walk| - 1], walk[|walk| - 2]);
    }
  }

  /** What the search knows: visited nodes are upstream and not agents, nodes on the stack are
      upstream or agents, and nothing upstream hides behind a node that is neither. */
  ghost predicate Searching(seeds: set<Id>, edges: seq<Edge>, agents: set<Id>, visited: set<Id>, stack: seq<Id>) {
    && (forall n :: n in visited ==> n !in agents && Upstream(seeds, edges, agents, n))
    && (forall n :: n in stack ==> n in agents || Upstream(seeds, edges, agents, n))
    && (forall n :: n in seeds ==> n in agents || n in visited || n in stack)
    && (forall e :: e in edges && e.dst in visited ==> e.src in agents || e.src in visited || e.src in stack)
  }

  lemma {:induction false} SearchStarts(seeds: seq<Id>, edges: seq<Edge>, agents: set<Id>)
    ensures Searching(Elements(seeds), edges, agents, {}, seeds)
  {
    forall n | n in seeds && n !in agents ensures Upstream(Elements(seeds), edges, agents, n) {
      UpstreamSeed(Elements(seeds), edges, agents, n);
    }
  }

  lemma {:induction false} SearchSkips(seeds: set<Id>, edges: seq<Edge>, agents: set<Id>, visited: set<Id>,
      stack: seq<Id>, node: Id)
    requires Searching(seeds, edges, agents, visited, stack + [node])
    requires node in visited || node in agents
    ensures Searching(seeds, edges, agents, visited, stack)
  {
    assert forall n :: n in stack + [node] <==> n in stack || n == node;
  }

  lemma {:induction false} SearchVisits(seeds: set<Id>, edges: seq<Edge>, agents: set<Id>, visited: set<Id>,
      stack: seq<Id>, node: Id, next: seq<Id>)
    requires Searching(seeds, edges, agents, visited, stack + [node])
    requires node !in agents
    requires forall n :: n in next <==>
      n in stack || exists e :: e in edges && e.dst == node && e.src == n && n !in visited + {node}
    ensures Searching(seeds, edges, agents, visited + {node}, next)
  {
    assert forall n :: n in stack + [node] <==> n in stack || n == node;
    forall n | n in next && n !in agents ensures Upstream(seeds, edges, agents, n) {
      if n !in stack {
        var e :| e in edges && e.dst == node && e.src == n;
        UpstreamStep(seeds, edges, agents, e);
      }
    }
  }

  lemma {:induction false} SearchEnds(seeds: set<Id>, edges: seq<Edge>, agents: set<Id>, visited: set<Id>)
    requires Searching(seeds, edges, agents, visited, [])
    ensures forall n :: n in visited <==> Upstream(seeds, edges, agents, n)
  {
    forall n | Upstream(seeds, edges, agents, n) ensures n in visited {
      var walk :| Walk(seeds, edges, agents, walk) && walk[|walk| - 1] == n;
      ClosedContains(seeds, edges, agents, visited, walk);
    }
  }

  ghost function IdsInto(edges: seq<Edge>, nodes: set<Id>): set<Id> {
    set e | e in edges && e.dst in nodes :: e.id
  }

  /** The inner loop: record each inbound edge and push the sources not yet visited. */
  method PushInbound(inbound: seq<Edge>, out0: set<Id>, stack0: seq<Id>, visited: set<Id>)
    returns (out: set<Id>, stack: seq<Id>)
    ensures out == out0 + set e | e in inbound :: e.id
    ensures forall n :: n in stack <==> n in stack0 || exists e :: e in inbound && e.src == n && n !in visited
  {
    out, stack := out0, stack0;
    for i := 0 to |inbound|
      invariant out == out0 + set e | e in inbound[..i] :: e.id
      invariant forall n :: n in stack <==> n in stack0 || exists e :: e in inbound[..i] && e.src == n && n !in visited
    {
      var e := inbound[i];
      assert inbound[..i + 1] == inbound[..i] + [e];
      out := out + {e.id};
      if e.src !in visited { stack := stack + [e.src]; }
    }
    assert inbound[..|inbound|] == inbound;
  }

  lemma {:induction false} IdsIntoStep(edges: seq<Edge>, visited: set<Id>, node: Id, inbound: seq<Edge>)
    requires forall e :: e in inbound <==> e in edges && e.dst == node
    ensures IdsInto(edges, visited + {node}) == IdsInto(edges, visited) + set e | e in inbound :: e.id
  {
  }

  /** Sound and complete, cycles included: an edge is on the probe path iff its target is upstream of
      a seed. The loop ends because each round visits a new node or shortens the stack. */
  method ProbingPathEdgeIds(seedNodeIds: seq<Id>, edges: seq<Edge>, agentNodeIds: set<Id>) returns (out: set<Id>)
    ensures out == PathIds(Elements(seedNodeIds), edges, agentNodeIds)
  {
    var inboundByDst := IndexByDst(edges);
    out := {};
    var visited: set<Id> := {};
    var stack := seedNodeIds;
    SearchStarts(seedNodeIds, edges, agentNodeIds);
    while stack != []
      invariant forall n :: n in stack ==> n in Universe(seedNodeIds, edges)
      invariant Searching(Elements(seedNodeIds), edges, agentNodeIds, visited, stack)
      invariant out == IdsInto(edges, visited)
      decreases Universe(seedNodeIds, edges) - visited, |stack|
    {
      var node := stack[|stack| - 1];
      assert stack == stack[..|stack| - 1] + [node];
      stack := stack[..|stack| - 1];
      if node in visited || node in agentNodeIds {
        SearchSkips(Elements(seedNodeIds), edges, agentNodeIds, visited, stack, node);
        continue;
      }
      var inbound := if node in inboundByDst then inboundByDst[node] else [];
      assert forall e :: e in inbound <==> e in edges && e.dst == node;
      ghost var known, rest := visited, stack;
      visited := visited + {node};
      out, stack := PushInbound(inbound, out, stack, visited);
      SearchVisits(Elements(seedNodeIds), edges, agentNodeIds, known, rest, node, stack);
      IdsIntoStep(edges, known, node, inbound);
    }
    SearchEnds(Elements(seedNodeIds), edges, agentNodeIds, visited);
  }

  lemma {:induction false} UpstreamOfUnion(a: set<Id>, b: set<Id>, edges: seq<Edge>, agents: set<Id>, n: Id)
    ensures Upstream(a + b, edges, agents, n) <==> Upstream(a, edges, agents, n) || Upstream(b, edges, agents, n)
  {
    if Upstream(a + b, edges, agents, n) {
      var walk :| Walk(a + b, edges, agents, walk) && walk[|walk| - 1] == n;
      assert Walk(a, edges, agents, walk) || Walk(b, edges, agents, walk);
    }
    if Upstream(a, edges, agents, n) {
      var walk :| Walk(a, edges, agents, walk) && walk[|walk| - 1] == n;
      assert Walk(a + b, edges, agents, walk);
    }
    if Upstream(b, edges, agents, n) {
      var walk :| Walk(b, edges, agents, walk) && walk[|walk| - 1] == n;
      assert Walk(a + b, edges, agents, walk);
    }
  }

  /** The probe path of two seed sets together is the union of their probe paths. */
  lemma {:induction false} PathOfUnion(a: set<Id>, b: set<Id>, edges: seq<Edge>, agents: set<Id>)
    ensures PathIds(a + b, edges, agents) == PathIds(a, edges, agents) + PathIds(b, edges, agents)
  {
    forall n ensures Upstream(a + b, edges, agents, n) <==>
      Upstream(a, edges, agents, n) || Upstream(b, edges, agents, n) {
      UpstreamOfUnion(a, b, edges, agents, n);
    }
  }
}
