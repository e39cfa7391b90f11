/** Two runs of dijkstra on one graph.  dijkstra (djiktra.py:59-79) never
    resets the distance and previous fields, so a second run from another
    start keeps the links of the first run wherever it does not lower a
    distance.  On the graph S -> A (10), A -> B (1), B -> A (1), a run from S
    and then a run from B leave A.previous == B and B.previous == A, and
    reconstruct_path (djiktra.py:86-94) to A or B then never returns.
    DijkstraFresh, which resets the fields first, leaves the path B, A. */
module StaleLinks {
  import opened Basics
  import opened ShortestPaths
  import opened Dijkstra
  import opened SampleGraph

  /** The edge lists, with S, A, B in slots 0, 1, 2. */
  function CycleAdj(): seq<seq<Edge>> {
    [[Edge(0, 1, 10)], [Edge(1, 2, 1)], [Edge(2, 1, 1)]]
  }

  function CycleNames(): map<string, nat> {
    map["S" := 0, "A" := 1, "B" := 2]
  }

  /** Graph(), add_vertex for S, A, B, then the three add_edge calls. */
  method BuildCycle() returns (g: Graph)
    ensures fresh(g) && g.Valid()
    ensures g.vertices == CycleNames() && g.names == ["S", "A", "B"] && g.adj == CycleAdj()
    ensures g.dist == [Inf, Inf, Inf] && g.prev == [None, None, None]
  {
    g := new Graph();
    var v := g.AddVertex("S");
    v := g.AddVertex("A");
    v := g.AddVertex("B");
    AddSampleEdge(g, "S", "A", 10, 0, 1);
    AddSampleEdge(g, "A", "B", 1, 1, 2);
    AddSampleEdge(g, "B", "A", 1, 2, 1);
    assert g.adj[0] == CycleAdj()[0] && g.adj[1] == CycleAdj()[1] && g.adj[2] == CycleAdj()[2];
  }

  /** The only shortest-path tree from S: S 0, A 10, B 11, with A hanging off
      S and B off A. */
  lemma FromS(d: seq<Dist>, prev: seq<Option<nat>>)
    requires ShortestPathTree(CycleAdj(), d, prev, 0)
    ensures d == [Fin(0), Fin(10), Fin(11)] && prev == [None, Some(0), Some(1)]
  {
    DistancesFromS(d, prev);
    var adj := CycleAdj();
    assert TreeEdges(adj, d, prev);
    assert prev[1].Some? && prev[2].Some?;
    var e1: Edge :| e1 in adj[prev[1].value] && e1.dest == 1 && d[prev[1].value].n + e1.weight == d[1].n;
    var e2: Edge :| e2 in adj[prev[2].value] && e2.dest == 2 && d[prev[2].value].n + e2.weight == d[2].n;
    if prev[1].value != 0 {
      assert false;
    }
    if prev[2].value != 1 {
      assert false;
    }
  }

  /** The distances of any shortest-path tree from S: each walk gives an
      upper bound, the labelling 0, 10, 11, a fixpoint, a lower bound. */
  lemma DistancesFromS(d: seq<Dist>, prev: seq<Option<nat>>)
    requires ShortestPathTree(CycleAdj(), d, prev, 0)
    ensures d == [Fin(0), Fin(10), Fin(11)]
  {
    var adj := CycleAdj();
    var d' := [Fin(0), Fin(10), Fin(11)];
    forall u | 0 <= u < 3 ensures Relaxed(adj, d', u) {
      assert u == 0 || u == 1 || u == 2;
    }
    var toA, toB := [Edge(0, 1, 10)], [Edge(0, 1, 10), Edge(1, 2, 1)];
    assert IsWalk(adj, [], 0, 0);
    WalkSnoc(adj, [], 0, 0, Edge(0, 1, 10));
    assert [] + [Edge(0, 1, 10)] == toA;
    WalkSnoc(adj, toA, 0, 1, Edge(1, 2, 1));
    assert toA + [Edge(1, 2, 1)] == toB;
    forall v | 0 <= v < 3 ensures d[v] == d'[v] {
      assert ShortestDistances(adj, d, 0);
      assert AtMost(d[1], Weight(toA)) && AtMost(d[2], Weight(toB));
      if v != 0 {
        var p :| IsWalk(adj, p, 0, v) && Weight(p) == d[v].n;
        WalkBound(adj, d', p, 0, v);
      }
    }
  }

  /** A second run from B on that tree: B goes to 0 and keeps its link to A;
      A drops to 1, so it is relinked, and the only edge that can carry it
      there is B -> A. */
  lemma ThenFromB(d0: seq<Dist>, d: seq<Dist>, prev: seq<Option<nat>>)
    requires d0 == [Fin(0), Fin(10), Fin(11)]
    requires |d| == 3 && |prev| == 3
    requires d[2] == Fin(0) && prev[2] == Some(1)
    requires Feasible(CycleAdj(), d) && Relinked(CycleAdj(), d0, d, prev, 2)
    ensures d[1] == Fin(1) && prev[1] == Some(2)
  {
    var adj := CycleAdj();
    assert Relaxed(adj, d, 2) && Edge(2, 1, 1) in adj[2];
    assert AtMost(d[1], 1);
    assert LinkedFrom(adj, d, prev, 1);
    var y := prev[1].value;
    var e: Edge :| e in adj[y] && e.dest == 1 && d[y].n + e.weight <= d[1].n;
    if y != 2 {
      assert false;
    }
  }

  /** A and B each other's previous vertex: the links have a cycle, and no
      chain of links ends at A or at B, so reconstruct_path to either loops. */
  lemma CycleNoChain(prev: seq<Option<nat>>)
    requires |prev| == 3 && prev[1] == Some(2) && prev[2] == Some(1)
    ensures !Acyclic(prev)
    ensures forall c :: IsChain(prev, c) ==> c[|c| - 1] != 1 && c[|c| - 1] != 2
  {
    forall c | IsChain(prev, c) ensures c[|c| - 1] != 1 && c[|c| - 1] != 2 {
      if c[|c| - 1] == 1 || c[|c| - 1] == 2 {
        var k := |c| - 1;
        while k > 0
          invariant 0 <= k < |c| && (c[k] == 1 || c[k] == 2)
        {
          assert prev[c[k]] == Some(c[k - 1]);
          k := k - 1;
        }
        assert false;
      }
    }
  }

  /** The two runs as written: dijkstra(g, "S"), then dijkstra(g, "B"). */
  method TwoRuns() returns (g: Graph)
    ensures g.Valid() && g.vertices == CycleNames() && g.adj == CycleAdj()
    ensures g.prev[1] == Some(2) && g.prev[2] == Some(1)
    ensures !Acyclic(g.prev)
    ensures forall c :: IsChain(g.prev, c) ==> c[|c| - 1] != g.vertices["A"]
  {
    g := BuildCycle();
    assert NonNegative(g.adj);
    assert Untouched(g.dist, g.prev);
    var r := Dijkstra.Dijkstra(g, "S");
    FromS(g.dist, g.prev);
    ghost var d0 := g.dist;
    assert RelaxedExcept(g.adj, g.dist, 2) by {
      assert Feasible(g.adj, g.dist);
    }
    r := Dijkstra.Dijkstra(g, "B");
    ThenFromB(d0, g.dist, g.prev);
    CycleNoChain(g.prev);
  }

  /** No walk from A or B reaches S: the only edge into S would have to leave
      A or B, and there is none. */
  lemma {:induction false} NoWalkToS(p: seq<Edge>, x: nat, t: nat)
    requires x == 1 || x == 2
    requires IsWalk(CycleAdj(), p, x, t)
    ensures t != 0
    decreases |p|
  {
    if p != [] {
      assert p[0] in CycleAdj()[x];
      NoWalkToS(p[1..], p[0].dest, t);
    }
  }

  /** The only shortest-path tree from B: S unreached, A 1 off B, B 0. */
  lemma FromB(d: seq<Dist>, prev: seq<Option<nat>>)
    requires ShortestPathTree(CycleAdj(), d, prev, 2)
    ensures d == [Inf, Fin(1), Fin(0)] && prev == [None, Some(2), None]
  {
    var adj := CycleAdj();
    assert ShortestDistances(adj, d, 2);
    if d[0].Fin? {
      var p :| IsWalk(adj, p, 2, 0) && Weight(p) == d[0].n;
      NoWalkToS(p, 2, 0);
    }
    assert Relaxed(adj, d, 2) && Edge(2, 1, 1) in adj[2];
    assert TreeEdges(adj, d, prev);
    assert prev[1].Some?;
    var y := prev[1].value;
    if y != 2 {
      assert false;
    }
  }

  /** dijkstra(g, "S"), then DijkstraFresh(g, "B"). */
  method RunsFixed() returns (g: Graph)
    ensures g.Valid() && g.vertices == CycleNames() && g.names == ["S", "A", "B"] && g.adj == CycleAdj()
    ensures g.dist == [Inf, Fin(1), Fin(0)] && g.prev == [None, Some(2), None]
  {
    g := BuildCycle();
    assert NonNegative(g.adj);
    assert Untouched(g.dist, g.prev);
    var r := Dijkstra.Dijkstra(g, "S");
    r := DijkstraFresh(g, "B");
    FromB(g.dist, g.prev);
  }

  /** The corrected second run: DijkstraFresh(g, "B") after dijkstra(g, "S")
      leaves the path B, A to A. */
  method TwoRunsFixed() returns (path: Result<seq<string>>)
    ensures path == Ok(["B", "A"])
  {
    var g := RunsFixed();
    assert Ranked(g.prev, [0, 1, 0]);
    assert "A" in g.vertices && g.vertices["A"] == 1;
    ghost var chain;
    path, chain := ReconstructPath(g, "B", "A");
    assert IsChain(g.prev, [2, 1]);
    ChainUnique(g.prev, chain, [2, 1]);
    assert path.value == ["B", "A"];
  }
}
