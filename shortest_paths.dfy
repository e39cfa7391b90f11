/** The weighted directed graph of djiktra.py (classes Vertex, Edge and Graph)
    and the graph-theoretic notions used to state what Dijkstra computes.

    Vertices live in an arena: slot v of the arena is one Vertex object, and
    its four fields are the columns names[v], adj[v] (its outgoing edges),
    dist[v] and prev[v] of class Graph.  The Python dictionary
    Graph.vertices maps a name to the slot of the vertex registered under it. */
module ShortestPaths {
  import opened Basics

  /** Vertex.distance: float('inf') is only a sentinel, every finite
      distance is a sum of integer weights starting from 0. */
  datatype Dist = Inf | Fin(n: nat)

  /** d <= k, with Inf above every number. */
  predicate AtMost(d: Dist, k: int) {
    d.Fin? && d.n <= k
  }

  /** a <= b on distances. */
  predicate Le(a: Dist, b: Dist) {
    b.Inf? || (a.Fin? && a.n <= b.n)
  }

  /** a < b on distances. */
  predicate Lt(a: Dist, b: Dist) {
    a.Fin? && (b.Inf? || a.n < b.n)
  }

  /** The test `new_dist < v.distance` (djiktra.py:76). */
  predicate Improves(k: nat, d: Dist) {
    d.Inf? || k < d.n
  }

  /** Edge(src, dest, weight), with the endpoints as arena slots. */
  datatype Edge = Edge(src: nat, dest: nat, weight: int)

  /** Every edge of slot u leaves u and ends at a slot of the arena. */
  ghost predicate EdgesOk(adj: seq<seq<Edge>>) {
    forall u, i :: 0 <= u < |adj| && 0 <= i < |adj[u]| ==>
      adj[u][i].src == u && adj[u][i].dest < |adj|
  }

  ghost predicate NonNegative(adj: seq<seq<Edge>>) {
    forall u, i :: 0 <= u < |adj| && 0 <= i < |adj[u]| ==> adj[u][i].weight >= 0
  }

  // ---------------------------------------------------------------------
  // Walks
  // ---------------------------------------------------------------------

  /** p is a walk from s to t along edges of the graph. */
  ghost predicate IsWalk(adj: seq<seq<Edge>>, p: seq<Edge>, s: nat, t: nat)
    decreases |p|
  {
    s < |adj| && t < |adj| &&
    if p == [] then s == t
    else p[0] in adj[s] && IsWalk(adj, p[1..], p[0].dest, t)
  }

  function Weight(p: seq<Edge>): int {
    if p == [] then 0 else p[0].weight + Weight(p[1..])
  }

  /** A walk to u followed by an edge out of u is a walk to that edge's end. */
  lemma {:induction false} WalkSnoc(adj: seq<seq<Edge>>, p: seq<Edge>, s: nat, u: nat, e: Edge)
    requires IsWalk(adj, p, s, u) && e in adj[u] && e.dest < |adj|
    ensures IsWalk(adj, p + [e], s, e.dest)
    ensures Weight(p + [e]) == Weight(p) + e.weight
  {
    if p == [] {
      assert [e][1..] == [];
    } else {
      assert (p + [e])[1..] == p[1..] + [e];
      WalkSnoc(adj, p[1..], p[0].dest, u, e);
    }
  }

  // ---------------------------------------------------------------------
  // Labellings: the distances Dijkstra leaves behind
  // ---------------------------------------------------------------------

  /** Every edge out of u, if u is reached, is relaxed:
      v.distance <= u.distance + weight. */
  ghost predicate Relaxed(adj: seq<seq<Edge>>, d: seq<Dist>, u: nat)
    requires u < |adj| && u < |d|
  {
    d[u].Fin? ==>
      forall e :: e in adj[u] ==> e.dest < |d| && AtMost(d[e.dest], d[u].n + e.weight)
  }

  /** The fixpoint condition: no edge can be relaxed any more. */
  ghost predicate Feasible(adj: seq<seq<Edge>>, d: seq<Dist>) {
    |d| == |adj| && forall u :: 0 <= u < |adj| ==> Relaxed(adj, d, u)
  }

  /** On a fixpoint, the label of t is at most the label of s plus the weight
      of any walk from s to t. */
  lemma {:induction false} WalkBound(adj: seq<seq<Edge>>, d: seq<Dist>, p: seq<Edge>, s: nat, t: nat)
    requires Feasible(adj, d) && IsWalk(adj, p, s, t) && d[s].Fin?
    ensures AtMost(d[t], d[s].n + Weight(p))
  {
    if p != [] {
      var e := p[0];
      assert Relaxed(adj, d, s);
      assert AtMost(d[e.dest], d[s].n + e.weight);
      WalkBound(adj, d, p[1..], e.dest, t);
    }
  }

  /** d is the shortest-walk distance from s: every finite label is the weight
      of some walk from s, and no walk from s is lighter than the label. */
  ghost predicate ShortestDistances(adj: seq<seq<Edge>>, d: seq<Dist>, s: nat) {
    |d| == |adj| &&
    forall v :: 0 <= v < |d| ==>
      (d[v].Fin? ==> exists p :: IsWalk(adj, p, s, v) && Weight(p) == d[v].n) &&
      (forall p :: IsWalk(adj, p, s, v) ==> AtMost(d[v], Weight(p)))
  }

  // ---------------------------------------------------------------------
  // Predecessor links
  // ---------------------------------------------------------------------

  /** rank strictly decreases along every previous link. */
  ghost predicate Ranked(prev: seq<Option<nat>>, rank: seq<nat>) {
    |rank| == |prev| &&
    forall v :: 0 <= v < |prev| && prev[v].Some? ==>
      prev[v].value < |prev| && rank[prev[v].value] < rank[v]
  }

  /** The previous links contain no cycle: following them always ends. */
  ghost predicate Acyclic(prev: seq<Option<nat>>) {
    exists rank :: Ranked(prev, rank)
  }

  /** Every link v.previous == u follows a tight edge u -> v. */
  ghost predicate TreeEdges(adj: seq<seq<Edge>>, d: seq<Dist>, prev: seq<Option<nat>>) {
    |d| == |adj| && |prev| == |adj| &&
    forall v :: 0 <= v < |prev| && prev[v].Some? ==>
      var u := prev[v].value;
      u < |adj| && d[u].Fin? && d[v].Fin? &&
      exists e :: e in adj[u] && e.dest == v && d[u].n + e.weight == d[v].n
  }

  /** What a run of Dijkstra from s leaves on a graph nobody ran it on before:
      shortest distances, a fixpoint, and an acyclic tree of tight previous
      links rooted at s that spans exactly the reached vertices. */
  ghost predicate ShortestPathTree(adj: seq<seq<Edge>>, d: seq<Dist>, prev: seq<Option<nat>>, s: nat) {
    |d| == |adj| && |prev| == |adj| && s < |adj| &&
    d[s] == Fin(0) && prev[s] == None &&
    Feasible(adj, d) && ShortestDistances(adj, d, s) &&
    TreeEdges(adj, d, prev) && Acyclic(prev) &&
    (forall v :: 0 <= v < |d| && d[v].Inf? ==> prev[v] == None) &&
    (forall v :: 0 <= v < |d| && v != s && d[v].Fin? ==> prev[v].Some?)
  }

  /** c walks the previous links: c[0] has no predecessor and
      c[i + 1].previous == c[i]. */
  ghost predicate IsChain(prev: seq<Option<nat>>, c: seq<nat>) {
    |c| >= 1 &&
    (forall i :: 0 <= i < |c| ==> c[i] < |prev|) &&
    prev[c[0]] == None &&
    forall i :: 0 <= i < |c| - 1 ==> prev[c[i + 1]] == Some(c[i])
  }

  /** The chain of previous links that ends at a given vertex is unique. */
  lemma ChainUnique(prev: seq<Option<nat>>, c1: seq<nat>, c2: seq<nat>)
    requires IsChain(prev, c1) && IsChain(prev, c2) && c1[|c1| - 1] == c2[|c2| - 1]
    ensures c1 == c2
  {
    if |c1| <= |c2| {
      ChainSuffix(prev, c1, c2);
    } else {
      ChainSuffix(prev, c2, c1);
    }
  }

  /** Walking two chains back from the same vertex: the shorter one cannot
      stop first, since its first vertex has no previous link. */
  lemma {:induction false} ChainSuffix(prev: seq<Option<nat>>, c1: seq<nat>, c2: seq<nat>)
    requires IsChain(prev, c1) && IsChain(prev, c2) && c1[|c1| - 1] == c2[|c2| - 1]
    requires |c1| <= |c2|
    ensures c1 == c2
  {
    var n1, n2 := |c1|, |c2|;
    var off := n2 - n1;
    var k := n1 - 1;
    while k > 0
      invariant 0 <= k <= n1 - 1
      invariant forall i :: k <= i < n1 ==> c1[i] == c2[i + off]
    {
      assert prev[c1[k]] == Some(c1[k - 1]);
      assert prev[c2[k + off]] == Some(c2[k - 1 + off]);
      k := k - 1;
    }
    assert c1[0] == c2[off] && prev[c1[0]] == None;
    forall j | 0 < j < n2 ensures prev[c2[j]] != None {
      assert prev[c2[(j - 1) + 1]] == Some(c2[j - 1]);
    }
    assert forall i :: 0 <= i < n1 ==> c1[i] == c2[i];
  }

  /** A vertex is reached exactly when a walk from the source leads to it. */
  lemma ReachedIffReachable(adj: seq<seq<Edge>>, d: seq<Dist>, prev: seq<Option<nat>>, s: nat, v: nat)
    requires ShortestPathTree(adj, d, prev, s) && v < |adj|
    ensures d[v].Fin? ==> exists p :: IsWalk(adj, p, s, v)
    ensures forall p :: IsWalk(adj, p, s, v) ==> d[v].Fin?
  {
    assert ShortestDistances(adj, d, s);
    if d[v].Fin? {
      var p :| IsWalk(adj, p, s, v) && Weight(p) == d[v].n;
    }
    forall p | IsWalk(adj, p, s, v) ensures d[v].Fin? {
      assert AtMost(d[v], Weight(p));
    }
  }

  /** The chain of previous links that ends at a reached vertex t starts at
      the source, and each of its steps is a tight edge, so the chain is a
      shortest route from the source to t. */
  lemma {:induction false} ChainFromSource(adj: seq<seq<Edge>>, d: seq<Dist>, prev: seq<Option<nat>>, s: nat, c: seq<nat>)
    requires ShortestPathTree(adj, d, prev, s) && IsChain(prev, c) && d[c[|c| - 1]].Fin?
    ensures c[0] == s
    ensures forall i :: 0 <= i < |c| ==> d[c[i]].Fin?
    ensures forall i :: 0 <= i < |c| - 1 ==>
      exists e :: e in adj[c[i]] && e.dest == c[i + 1] && d[c[i]].n + e.weight == d[c[i + 1]].n
  {
    var k := |c| - 1;
    while k > 0
      invariant 0 <= k < |c|
      invariant forall i :: k <= i < |c| ==> d[c[i]].Fin?
    {
      assert prev[c[k]] == Some(c[k - 1]);
      k := k - 1;
    }
    assert prev[c[0]] == None;
    forall i | 0 <= i < |c| - 1
      ensures exists e :: e in adj[c[i]] && e.dest == c[i + 1] && d[c[i]].n + e.weight == d[c[i + 1]].n
    {
      assert prev[c[i + 1]] == Some(c[i]);
    }
  }

  // ---------------------------------------------------------------------
  // The graph object
  // ---------------------------------------------------------------------

  class Graph {
    /** Graph.vertices: name -> slot of the vertex registered under it. */
    var vertices: map<string, nat>
    /** The arena, one column per Vertex field. */
    var names: seq<string>
    var adj: seq<seq<Edge>>
    var dist: seq<Dist>
    var prev: seq<Option<nat>>

    ghost predicate Valid()
      reads this
    {
      |names| == |adj| && |dist| == |adj| && |prev| == |adj| &&
      EdgesOk(adj) &&
      (forall v :: 0 <= v < |prev| && prev[v].Some? ==> prev[v].value < |prev|) &&
      (forall k :: k in vertices ==> vertices[k] < |names| && names[vertices[k]] == k)
    }

    /** Graph() (djiktra.py:38-39): no vertices. */
    constructor ()
      ensures Valid()
      ensures vertices == map[] && names == [] && adj == [] && dist == [] && prev == []
    {
      vertices, names, adj, dist, prev := map[], [], [], [], [];
    }

    /** Graph.add_vertex (djiktra.py:41-44) with Vertex() (djiktra.py:6-10):
        a fresh vertex with no edges, distance inf and no previous.  An
        existing name is re-pointed to the fresh vertex; the old vertex stays
        in the arena and edges that point to it keep pointing to it. */
    method AddVertex(name: string) returns (v: nat)
      requires Valid()
      modifies this
      ensures Valid()
      ensures v == |old(names)|
      ensures names == old(names) + [name] && adj == old(adj) + [[]]
      ensures dist == old(dist) + [Inf] && prev == old(prev) + [None]
      ensures vertices == old(vertices)[name := v]
    {
      v := |names|;
      names, adj, dist, prev := names + [name], adj + [[]], dist + [Inf], prev + [None];
      vertices := vertices[name := v];
    }

    /** Vertex.add_edge (djiktra.py:12-13): append an edge to u's list. */
    method AppendEdge(u: nat, to: nat, weight: int)
      requires Valid() && u < |adj| && to < |adj|
      modifies this
      ensures Valid()
      ensures adj == old(adj)[u := old(adj)[u] + [Edge(u, to, weight)]]
      ensures vertices == old(vertices) && names == old(names)
      ensures dist == old(dist) && prev == old(prev)
    {
      adj := adj[u := adj[u] + [Edge(u, to, weight)]];
    }

    /** Graph.add_edge (djiktra.py:46-47): both names are looked up first
        (src, then dest), so an unknown name raises KeyError and changes
        nothing.  The weight is not checked. */
    method AddEdge(src: string, dest: string, weight: int) returns (r: Outcome)
      requires Valid()
      modifies this
      ensures Valid()
      ensures vertices == old(vertices) && names == old(names)
      ensures dist == old(dist) && prev == old(prev)
      ensures src !in vertices ==> r == Fail(KeyError(src)) && adj == old(adj)
      ensures src in vertices && dest !in vertices ==> r == Fail(KeyError(dest)) && adj == old(adj)
      ensures src in vertices && dest in vertices ==>
        var u := vertices[src];
        r == Pass && adj == old(adj)[u := old(adj)[u] + [Edge(u, vertices[dest], weight)]]
    {
      if src !in vertices {
        return Fail(KeyError(src));
      }
      if dest !in vertices {
        return Fail(KeyError(dest));
      }
      AppendEdge(vertices[src], vertices[dest], weight);
      r := Pass;
    }

    /** Graph.get_vertex (djiktra.py:49-50): the vertex the name currently
        points to (not an older vertex of the same name left by add_vertex),
        which carries that name, or KeyError. */
    function GetVertex(name: string): (r: Result<nat>)
      requires Valid()
      reads this
      ensures r.Ok? <==> name in vertices
      ensures r.Ok? ==> r.value == vertices[name] && r.value < |names| && names[r.value] == name
      ensures r.Err? ==> r.error == KeyError(name)
    {
      if name in vertices then Ok(vertices[name]) else Err(KeyError(name))
    }
  }
}
