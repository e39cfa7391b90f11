/** The example at the end of djiktra.py (lines 219-238): six vertices A..F,
    nine edges, dijkstra from A and the path to F. */
module SampleGraph {
  import opened Basics
  import opened ShortestPaths
  import opened Dijkstra

  /** The edge lists of the example, with A..F in slots 0..5. */
  function SampleAdj(): seq<seq<Edge>> {
    [[Edge(0, 1, 4), Edge(0, 2, 2)],
     [Edge(1, 2, 1), Edge(1, 3, 5)],
     [Edge(2, 3, 8), Edge(2, 4, 10)],
     [Edge(3, 4, 2), Edge(3, 5, 6)],
     [Edge(4, 5, 3)],
     []]
  }

  /** The distances from A: A 0, B 4, C 2, D 9, E 11, F 14. */
  function SampleDist(): seq<Dist> {
    [Fin(0), Fin(4), Fin(2), Fin(9), Fin(11), Fin(14)]
  }

  /** The tree of previous links: B and C hang off A, D off B, E off D, F off E. */
  function SamplePrev(): seq<Option<nat>> {
    [None, Some(0), Some(0), Some(1), Some(3), Some(4)]
  }

  /** One shortest walk from A to every vertex. */
  function SampleWalk(v: nat): seq<Edge>
    requires v < 6
  {
    if v == 0 then []
    else if v == 1 then [Edge(0, 1, 4)]
    else if v == 2 then [Edge(0, 2, 2)]
    else if v == 3 then [Edge(0, 1, 4), Edge(1, 3, 5)]
    else if v == 4 then [Edge(0, 1, 4), Edge(1, 3, 5), Edge(3, 4, 2)]
    else [Edge(0, 1, 4), Edge(1, 3, 5), Edge(3, 4, 2), Edge(4, 5, 3)]
  }

  lemma SampleWalks(v: nat)
    requires v < 6
    ensures IsWalk(SampleAdj(), SampleWalk(v), 0, v)
    ensures Weight(SampleWalk(v)) == SampleDist()[v].n
  {
    var adj := SampleAdj();
    assert IsWalk(adj, [], 0, 0);
    WalkSnoc(adj, [], 0, 0, Edge(0, 2, 2));
    WalkSnoc(adj, [], 0, 0, Edge(0, 1, 4));
    assert [] + [Edge(0, 1, 4)] == SampleWalk(1);
    WalkSnoc(adj, SampleWalk(1), 0, 1, Edge(1, 3, 5));
    assert SampleWalk(1) + [Edge(1, 3, 5)] == SampleWalk(3);
    WalkSnoc(adj, SampleWalk(3), 0, 3, Edge(3, 4, 2));
    assert SampleWalk(3) + [Edge(3, 4, 2)] == SampleWalk(4);
    WalkSnoc(adj, SampleWalk(4), 0, 4, Edge(4, 5, 3));
    assert SampleWalk(4) + [Edge(4, 5, 3)] == SampleWalk(5);
  }

  /** The sample distances are a fixpoint. */
  lemma SampleFeasible()
    ensures Feasible(SampleAdj(), SampleDist())
  {
    var adj, d := SampleAdj(), SampleDist();
    forall u | 0 <= u < |adj| ensures Relaxed(adj, d, u) {
      assert u == 0 || u == 1 || u == 2 || u == 3 || u == 4 || u == 5;
    }
  }

  /** Any shortest-path tree from A on the sample graph has the sample
      distances: each walk gives an upper bound, and the sample distances,
      being a fixpoint with A at 0, a lower bound. */
  lemma SampleDistances(d: seq<Dist>, prev: seq<Option<nat>>)
    requires ShortestPathTree(SampleAdj(), d, prev, 0)
    ensures d == SampleDist()
  {
    var adj := SampleAdj();
    SampleFeasible();
    forall v | 0 <= v < 6 ensures d[v] == SampleDist()[v] {
      SampleWalks(v);
      assert AtMost(d[v], Weight(SampleWalk(v)));
      var p :| IsWalk(adj, p, 0, v) && Weight(p) == d[v].n;
      WalkBound(adj, SampleDist(), p, 0, v);
    }
  }

  /** In a shortest-path tree each previous link is a tight edge; on the
      sample graph every vertex but A has exactly one tight incoming edge. */
  lemma SampleLinks(d: seq<Dist>, prev: seq<Option<nat>>)
    requires ShortestPathTree(SampleAdj(), d, prev, 0)
    ensures prev == SamplePrev()
  {
    SampleDistances(d, prev);
    var adj := SampleAdj();
    forall v | 1 <= v < 6 ensures prev[v] == SamplePrev()[v] {
      assert prev[v].Some?;
      var u := prev[v].value;
      assert u < 6;
      var e: Edge :| e in adj[u] && e.dest == v && d[u].n + e.weight == d[v].n;
      assert u == 0 || u == 1 || u == 2 || u == 3 || u == 4 || u == 5;
    }
  }

  /** The six add_vertex calls (djiktra.py:219-222). */
  method BuildVertices() returns (g: Graph)
    ensures fresh(g) && g.Valid()
    ensures g.vertices == map["A" := 0, "B" := 1, "C" := 2, "D" := 3, "E" := 4, "F" := 5] && g.names == ["A", "B", "C", "D", "E", "F"]
    ensures g.adj == [[], [], [], [], [], []]
    ensures g.dist == [Inf, Inf, Inf, Inf, Inf, Inf] && g.prev == [None, None, None, None, None, None]
  {
    g := new Graph();
    var v := g.AddVertex("A");
    v := g.AddVertex("B");
    v := g.AddVertex("C");
    v := g.AddVertex("D");
    v := g.AddVertex("E");
    v := g.AddVertex("F");
  }

  /** One add_edge call between vertices of the example: src and dest are
      registered in slots u and v, so the edge is appended to u's list. */
  method AddSampleEdge(g: Graph, src: string, dest: string, weight: int, ghost u: nat, ghost v: nat)
    requires g.Valid() && src in g.vertices && dest in g.vertices
    requires g.vertices[src] == u && g.vertices[dest] == v
    modifies g
    ensures g.Valid() && g.vertices == old(g.vertices) && g.names == old(g.names)
    ensures g.dist == old(g.dist) && g.prev == old(g.prev)
    ensures g.adj == old(g.adj)[u := old(g.adj)[u] + [Edge(u, v, weight)]]
  {
    var r := g.AddEdge(src, dest, weight);
  }

  /** The add_edge calls out of A, B and C (djiktra.py:224-229). */
  method AddFirstEdges(g: Graph)
    requires g.Valid() && g.vertices == map["A" := 0, "B" := 1, "C" := 2, "D" := 3, "E" := 4, "F" := 5] && g.adj == [[], [], [], [], [], []]
    modifies g
    ensures g.Valid() && g.vertices == old(g.vertices) && g.names == old(g.names)
    ensures g.dist == old(g.dist) && g.prev == old(g.prev)
    ensures g.adj == SampleAdj()[..3] + [[], [], []]
  {
    AddSampleEdge(g, "A", "B", 4, 0, 1);
    AddSampleEdge(g, "A", "C", 2, 0, 2);
    AddSampleEdge(g, "B", "C", 1, 1, 2);
    AddSampleEdge(g, "B", "D", 5, 1, 3);
    AddSampleEdge(g, "C", "D", 8, 2, 3);
    AddSampleEdge(g, "C", "E", 10, 2, 4);
    ghost var adj := SampleAdj()[..3] + [[], [], []];
    assert g.adj[0] == adj[0] && g.adj[1] == adj[1] && g.adj[2] == adj[2];
    assert g.adj[3] == adj[3] && g.adj[4] == adj[4] && g.adj[5] == adj[5];
  }

  /** The add_edge calls out of D and E (djiktra.py:230-232). */
  method AddLastEdges(g: Graph)
    requires g.Valid() && g.vertices == map["A" := 0, "B" := 1, "C" := 2, "D" := 3, "E" := 4, "F" := 5] && g.adj == SampleAdj()[..3] + [[], [], []]
    modifies g
    ensures g.Valid() && g.vertices == old(g.vertices) && g.names == old(g.names)
    ensures g.dist == old(g.dist) && g.prev == old(g.prev)
    ensures g.adj == SampleAdj()
  {
    AddSampleEdge(g, "D", "E", 2, 3, 4);
    AddSampleEdge(g, "D", "F", 6, 3, 5);
    AddSampleEdge(g, "E", "F", 3, 4, 5);
    ghost var adj := SampleAdj();
    assert g.adj[0] == adj[0] && g.adj[1] == adj[1] && g.adj[2] == adj[2];
    assert g.adj[3] == adj[3] && g.adj[4] == adj[4] && g.adj[5] == adj[5];
  }

  /** The graph built by djiktra.py:219-232: add_vertex for A..F, then the
      nine add_edge calls. */
  method BuildSample() returns (g: Graph)
    ensures fresh(g) && g.Valid()
    ensures g.vertices == map["A" := 0, "B" := 1, "C" := 2, "D" := 3, "E" := 4, "F" := 5] && g.names == ["A", "B", "C", "D", "E", "F"]
    ensures g.adj == SampleAdj()
    ensures g.dist == [Inf, Inf, Inf, Inf, Inf, Inf] && g.prev == [None, None, None, None, None, None]
  {
    g := BuildVertices();
    AddFirstEdges(g);
    AddLastEdges(g);
  }

  /** The only chain of previous links in the sample tree that ends at F. */
  lemma SampleChain(prev: seq<Option<nat>>, chain: seq<nat>)
    requires prev == SamplePrev() && IsChain(prev, chain) && chain[|chain| - 1] == 5
    ensures chain == [0, 1, 3, 4, 5]
  {
    assert IsChain(prev, [0, 1, 3, 4, 5]);
    ChainUnique(prev, chain, [0, 1, 3, 4, 5]);
  }

  /** The previous links of the sample tree have no cycle. */
  lemma SamplePrevAcyclic()
    ensures Acyclic(SamplePrev())
  {
    assert Ranked(SamplePrev(), [0, 1, 1, 2, 3, 4]);
  }

  /** dijkstra(g, "A") on the example graph (djiktra.py:234-237). */
  method RunSample() returns (g: Graph)
    ensures fresh(g) && g.Valid()
    ensures g.vertices == map["A" := 0, "B" := 1, "C" := 2, "D" := 3, "E" := 4, "F" := 5] && g.names == ["A", "B", "C", "D", "E", "F"]
    ensures g.adj == SampleAdj() && g.dist == SampleDist() && g.prev == SamplePrev()
  {
    g := BuildSample();
    assert NonNegative(g.adj);
    assert Untouched(g.dist, g.prev);
    assert "A" in g.vertices && g.vertices["A"] == 0;
    var r := Dijkstra.Dijkstra(g, "A");
    SampleDistances(g.dist, g.prev);
    SampleLinks(g.dist, g.prev);
  }

  /** The example program (djiktra.py:219-238): build the graph, run
      dijkstra from A and reconstruct the path to F.  distances lists the
      vertices in the order they were added. */
  method Sample() returns (distances: seq<Dist>, path: Result<seq<string>>)
    ensures distances == [Fin(0), Fin(4), Fin(2), Fin(9), Fin(11), Fin(14)]
    ensures path == Ok(["A", "B", "D", "E", "F"])
  {
    var g := RunSample();
    distances := g.dist;
    SamplePrevAcyclic();
    assert "F" in g.vertices && g.vertices["F"] == 5;
    ghost var chain;
    path, chain := ReconstructPath(g, "A", "F");
    SampleChain(g.prev, chain);
    assert chain == [0, 1, 3, 4, 5] && |path.value| == 5;
    assert path.value[0] == g.names[0] && path.value[1] == g.names[1] && path.value[2] == g.names[3];
    assert path.value[3] == g.names[4] && path.value[4] == g.names[5];
    assert path.value == ["A", "B", "D", "E", "F"];
  }
}
