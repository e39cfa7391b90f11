/** dijkstra and reconstruct_path of djiktra.py, run on the arena graph of
    module ShortestPaths.

    The heap is an abstract extract-min multiset of (distance, slot) pairs:
    any entry of least distance may come out first.  dijkstra does not reset
    the distance and previous fields it finds, so what a run establishes
    depends on the state it starts from; the contract says what holds after
    any run, and what holds after a run on a graph where no vertex was reached
    yet (the state add_vertex leaves). */
module Dijkstra {
  import opened Basics
  import opened ShortestPaths

  /** A heap entry (new_dist, v). */
  type Entry = (nat, nat)

  // ---------------------------------------------------------------------
  // Facts about states and runs
  // ---------------------------------------------------------------------

  /** No vertex reached: every distance inf, every previous None. */
  ghost predicate Untouched(d: seq<Dist>, prev: seq<Option<nat>>) {
    |d| == |prev| &&
    forall v :: 0 <= v < |d| ==> d[v] == Inf && prev[v] == None
  }

  /** Every reached vertex other than s has all its edges relaxed. */
  ghost predicate RelaxedExcept(adj: seq<seq<Edge>>, d: seq<Dist>, s: nat) {
    |d| == |adj| &&
    forall u :: 0 <= u < |adj| && u != s ==> Relaxed(adj, d, u)
  }

  /** From (d0, p0) to (d, p) no distance grew, and a previous link changed
      only where the distance strictly dropped. */
  ghost predicate NoWorse(d0: seq<Dist>, p0: seq<Option<nat>>, d: seq<Dist>, p: seq<Option<nat>>) {
    |d0| == |d| && |p0| == |p| && |d| == |p| &&
    forall v :: 0 <= v < |d| ==> Le(d[v], d0[v]) && (p[v] != p0[v] ==> Lt(d[v], d0[v]))
  }

  /** Every heap entry (k, v) is no better than v's recorded distance. */
  ghost predicate QueueOk(d: seq<Dist>, pq: multiset<Entry>) {
    forall e :: e in pq ==> e.1 < |d| && AtMost(d[e.1], e.0)
  }

  /** A reached vertex still has its current distance waiting in the heap,
      or it has relaxed all its edges. */
  ghost predicate PendingOrRelaxed(adj: seq<seq<Edge>>, d: seq<Dist>, pq: multiset<Entry>, u: nat)
    requires u < |adj| && u < |d|
  {
    d[u].Fin? ==> (d[u].n, u) in pq || Relaxed(adj, d, u)
  }

  ghost predicate Settling(adj: seq<seq<Edge>>, d: seq<Dist>, pq: multiset<Entry>, skip: int) {
    |d| == |adj| &&
    forall u :: 0 <= u < |adj| && u != skip ==> PendingOrRelaxed(adj, d, pq, u)
  }

  /** v hangs off its previous vertex u, which is reached, through an edge
      u -> v with u.distance + weight <= v.distance. */
  ghost predicate LinkedFrom(adj: seq<seq<Edge>>, d: seq<Dist>, prev: seq<Option<nat>>, v: nat)
    requires |d| == |adj| && |prev| == |adj| && v < |adj|
  {
    prev[v].Some? && prev[v].value < |adj| && d[prev[v].value].Fin? && d[v].Fin? &&
    exists e :: e in adj[prev[v].value] && e.dest == v && d[prev[v].value].n + e.weight <= d[v].n
  }

  /** Every vertex other than s whose distance changed since d0 is LinkedFrom
      its previous vertex. */
  ghost predicate Relinked(adj: seq<seq<Edge>>, d0: seq<Dist>, d: seq<Dist>, prev: seq<Option<nat>>, s: nat) {
    |d0| == |adj| && |d| == |adj| && |prev| == |adj| &&
    forall v :: 0 <= v < |adj| && v != s && d[v] != d0[v] ==> LinkedFrom(adj, d, prev, v)
  }

  /** The state (d, p, q) after relaxing the edges es of u at distance du,
      starting from (d0, p0, q0): no distance grew; a vertex whose distance
      changed now has u as previous vertex and du plus the weight of one of
      the edges of es into it as distance; a link changed only together with
      its distance; the heap only gained entries (du + weight, dest) of edges
      of es.  So a vertex that no edge of es enters keeps distance and link. */
  ghost predicate Relaxation(es: seq<Edge>, u: nat, du: nat,
                             d0: seq<Dist>, p0: seq<Option<nat>>, q0: multiset<Entry>,
                             d: seq<Dist>, p: seq<Option<nat>>, q: multiset<Entry>)
  {
    |d0| == |d| && |p0| == |p| && |d| == |p| &&
    (forall v :: 0 <= v < |d| ==> Le(d[v], d0[v])) &&
    (forall v :: 0 <= v < |d| && d[v] != d0[v] ==>
       p[v] == Some(u) && d[v].Fin? && exists e :: e in es && e.dest == v && d[v].n == du + e.weight) &&
    (forall v :: 0 <= v < |d| && p[v] != p0[v] ==> d[v] != d0[v]) &&
    q0 <= q &&
    (forall x :: x in q - q0 ==> exists e :: e in es && x.0 == du + e.weight && x.1 == e.dest)
  }

  // ---------------------------------------------------------------------
  // Termination measure: unreached vertices, then the sum of distances
  // ---------------------------------------------------------------------

  function InfCount(d: seq<Dist>): nat {
    if d == [] then 0 else (if d[0].Inf? then 1 else 0) + InfCount(d[1..])
  }

  function FinSum(d: seq<Dist>): nat {
    if d == [] then 0 else (if d[0].Fin? then d[0].n else 0) + FinSum(d[1..])
  }

  /** d' is below d in the lexicographic order (InfCount, FinSum). */
  ghost predicate LexLess(d': seq<Dist>, d: seq<Dist>) {
    InfCount(d') < InfCount(d) || (InfCount(d') == InfCount(d) && FinSum(d') < FinSum(d))
  }

  /** Lowering one distance to a finite value moves down the measure:
      inf -> finite removes an unreached vertex, a finite drop lowers the sum. */
  lemma {:induction false} LowerOne(d: seq<Dist>, v: nat, k: nat)
    requires v < |d| && Improves(k, d[v])
    ensures d[v].Inf? ==> InfCount(d[v := Fin(k)]) == InfCount(d) - 1
    ensures d[v].Fin? ==> InfCount(d[v := Fin(k)]) == InfCount(d) && FinSum(d[v := Fin(k)]) == FinSum(d) - (d[v].n - k)
    ensures LexLess(d[v := Fin(k)], d)
  {
    var d' := d[v := Fin(k)];
    if v == 0 {
      assert d'[1..] == d[1..];
    } else {
      assert d'[1..] == d[1..][v - 1 := Fin(k)];
      LowerOne(d[1..], v - 1, k);
    }
  }

  lemma SomeEntry(pq: multiset<Entry>) returns (x: Entry)
    requires pq != multiset{}
    ensures x in pq
  {
    assert |pq| != 0;
    x :| x in pq;
  }

  /** The least distance in a non-empty heap. */
  lemma {:induction false} MinEntry(pq: multiset<Entry>) returns (m: Entry)
    requires pq != multiset{}
    ensures m in pq && forall f :: f in pq ==> m.0 <= f.0
    decreases |pq|
  {
    var x := SomeEntry(pq);
    var rest := pq - multiset{x};
    if rest == multiset{} {
      m := x;
    } else {
      var m' := MinEntry(rest);
      m := if x.0 < m'.0 then x else m';
    }
    forall f | f in pq ensures m.0 <= f.0 {
      if f != x {
        assert f in rest;
      }
    }
  }

  // ---------------------------------------------------------------------
  // Invariants of a run on an untouched graph
  // ---------------------------------------------------------------------

  /** The link v.previous == u was set through edge adj[u][via[v]], and it is
      tight or the link u was stamped before v. */
  ghost predicate LinkOk(adj: seq<seq<Edge>>, d: seq<Dist>, prev: seq<Option<nat>>,
                         via: seq<nat>, stamp: seq<nat>, v: nat)
    requires |d| == |adj| && |prev| == |adj| && |via| == |adj| && |stamp| == |adj| && v < |adj|
  {
    prev[v].Some? ==>
      var u := prev[v].value;
      u < |adj| && d[u].Fin? && d[v].Fin? && via[v] < |adj[u]| &&
      var e := adj[u][via[v]];
      e.dest == v &&
      (d[u].n + e.weight < d[v].n || (d[u].n + e.weight == d[v].n && stamp[u] < stamp[v]))
  }

  /** The ghost record of a run: wit[v] is a walk from the source whose
      weight is v's distance, via[v] the index of the edge that set v's
      previous link, stamp[v] the time of that update and clock the next time. */
  datatype Trace = Trace(wit: seq<seq<Edge>>, via: seq<nat>, stamp: seq<nat>, clock: nat)

  /** What a run on an untouched graph maintains: every finite label is the
      weight of the walk t.wit[v] from s, exactly the reached vertices other
      than s have a previous link, and every link is explained by LinkOk with
      stamps below t.clock. */
  ghost predicate FreshInv(adj: seq<seq<Edge>>, d: seq<Dist>, prev: seq<Option<nat>>, s: nat, t: Trace)
  {
    |d| == |adj| && |prev| == |adj| && |t.wit| == |adj| && |t.via| == |adj| && |t.stamp| == |adj| &&
    s < |adj| && prev[s] == None &&
    (forall v :: 0 <= v < |adj| ==> t.stamp[v] < t.clock) &&
    (forall v :: 0 <= v < |adj| && d[v].Fin? ==> IsWalk(adj, t.wit[v], s, v) && Weight(t.wit[v]) == d[v].n) &&
    (forall v :: 0 <= v < |adj| && d[v].Inf? ==> prev[v] == None) &&
    (forall v :: 0 <= v < |adj| && v != s && d[v].Fin? ==> prev[v].Some?) &&
    (forall v :: 0 <= v < |adj| ==> LinkOk(adj, d, prev, t.via, t.stamp, v))
  }

  /** Relaxing edge adj[u][j] keeps FreshInv. */
  lemma FreshStep(adj: seq<seq<Edge>>, d: seq<Dist>, prev: seq<Option<nat>>, s: nat,
                  t: Trace, u: nat, j: nat, nd: nat) returns (t': Trace)
    requires EdgesOk(adj) && FreshInv(adj, d, prev, s, t) && d[s] == Fin(0)
    requires u < |adj| && d[u].Fin? && j < |adj[u]| && adj[u][j].weight >= 0
    requires nd == d[u].n + adj[u][j].weight && Improves(nd, d[adj[u][j].dest])
    ensures FreshInv(adj, d[adj[u][j].dest := Fin(nd)], prev[adj[u][j].dest := Some(u)], s, t')
  {
    var e := adj[u][j];
    var v := e.dest;
    var wit, via, stamp, clock := t.wit, t.via, t.stamp, t.clock;
    var d', prev', wit', via', stamp' := d[v := Fin(nd)], prev[v := Some(u)], wit[v := wit[u] + [e]], via[v := j], stamp[v := clock];
    assert v != u;
    assert v != s;
    WalkSnoc(adj, wit[u], s, u, e);
    forall x | 0 <= x < |adj|
      ensures LinkOk(adj, d', prev', via', stamp', x)
    {
      assert LinkOk(adj, d, prev, via, stamp, x);
    }
    t' := Trace(wit', via', stamp', clock + 1);
    assert FreshInv(adj, d', prev', s, t');
  }

  /** At the end of a run on an untouched graph the distances are a fixpoint,
      which with FreshInv makes them a shortest-path tree. */
  lemma FreshFinish(adj: seq<seq<Edge>>, d: seq<Dist>, prev: seq<Option<nat>>, s: nat, t: Trace)
    requires EdgesOk(adj) && NonNegative(adj)
    requires FreshInv(adj, d, prev, s, t)
    requires Feasible(adj, d) && d[s] == Fin(0)
    ensures ShortestPathTree(adj, d, prev, s)
  {
    var wit, via, stamp, clock := t.wit, t.via, t.stamp, t.clock;
    forall v | 0 <= v < |d|
      ensures d[v].Fin? ==> exists p :: IsWalk(adj, p, s, v) && Weight(p) == d[v].n
      ensures forall p :: IsWalk(adj, p, s, v) ==> AtMost(d[v], Weight(p))
    {
      if d[v].Fin? {
        assert IsWalk(adj, wit[v], s, v) && Weight(wit[v]) == d[v].n;
      }
      forall p | IsWalk(adj, p, s, v) ensures AtMost(d[v], Weight(p)) {
        WalkBound(adj, d, p, s, v);
      }
    }
    forall v | 0 <= v < |prev| && prev[v].Some?
      ensures var u := prev[v].value;
        u < |adj| && d[u].Fin? && d[v].Fin? &&
        exists e :: e in adj[u] && e.dest == v && d[u].n + e.weight == d[v].n
    {
      assert LinkOk(adj, d, prev, via, stamp, v);
      var u := prev[v].value;
      var e := adj[u][via[v]];
      assert Relaxed(adj, d, u);
      assert e in adj[u];
    }
    var rank := Ranks(adj, d, prev, via, stamp, clock);
    assert Ranked(prev, rank);
  }

  /** rank[v] = distance * clock + stamp, which strictly grows along every
      previous link. */
  lemma Ranks(adj: seq<seq<Edge>>, d: seq<Dist>, prev: seq<Option<nat>>,
              via: seq<nat>, stamp: seq<nat>, clock: nat) returns (rank: seq<nat>)
    requires EdgesOk(adj) && NonNegative(adj)
    requires |d| == |adj| && |prev| == |adj| && |via| == |adj| && |stamp| == |adj|
    requires forall v :: 0 <= v < |adj| ==> stamp[v] < clock
    requires forall v :: 0 <= v < |adj| ==> LinkOk(adj, d, prev, via, stamp, v)
    ensures Ranked(prev, rank)
  {
    rank := seq(|adj|, v requires 0 <= v < |adj| => if d[v].Fin? then d[v].n * clock + stamp[v] else 0);
    forall v | 0 <= v < |prev| && prev[v].Some?
      ensures prev[v].value < |prev| && rank[prev[v].value] < rank[v]
    {
      assert LinkOk(adj, d, prev, via, stamp, v);
      var u := prev[v].value;
      var e := adj[u][via[v]];
      assert e.weight >= 0;
      LexRank(d[u].n, d[v].n, stamp[u], stamp[v], clock);
    }
  }

  /** (a, s) < (b, t) lexicographically, with stamps below k, gives
      a * k + s < b * k + t. */
  lemma LexRank(a: nat, b: nat, s: nat, t: nat, k: nat)
    requires s < k && t < k
    requires a < b || (a == b && s < t)
    ensures a * k + s < b * k + t
  {
    if a < b {
      assert (b - a) * k >= k by {
        assert b - a >= 1;
      }
      assert b * k == a * k + (b - a) * k;
    }
  }

  // ---------------------------------------------------------------------
  // The state of a run
  // ---------------------------------------------------------------------

  /** What holds of a run from s between heap operations: the source stays
      at 0, nothing got worse since the start (d0, p0), the heap entries are
      valid, and every vertex lowered since the start hangs off its previous
      vertex through an edge; if the start state was relaxed everywhere but at s, every
      reached vertex other than skip is pending or relaxed; and on an
      untouched start the trace t explains the state. */
  ghost predicate RunInv(adj: seq<seq<Edge>>, d: seq<Dist>, prev: seq<Option<nat>>, pq: multiset<Entry>,
                         s: nat, d0: seq<Dist>, p0: seq<Option<nat>>, stable0: bool, fresh0: bool,
                         t: Trace, skip: int)
  {
    |d| == |adj| && |prev| == |adj| && |p0| == |adj| && s < |adj| &&
    d[s] == Fin(0) && prev[s] == p0[s] &&
    NoWorse(d0, p0, d, prev) && Relinked(adj, d0, d, prev, s) && QueueOk(d, pq) &&
    (stable0 ==> Settling(adj, d, pq, skip)) &&
    (fresh0 ==> FreshInv(adj, d, prev, s, t))
  }

  /** The run made progress: the state dropped in the measure, or it stayed
      and the heap shrank. */
  ghost predicate Progress(d': seq<Dist>, pq': multiset<Entry>, d: seq<Dist>, pq: multiset<Entry>) {
    LexLess(d', d) || (d' == d && |pq'| < |pq|)
  }

  /** The state right after the source is set to 0 and pushed. */
  lemma Start(adj: seq<seq<Edge>>, d0: seq<Dist>, p0: seq<Option<nat>>, s: nat, stable0: bool, fresh0: bool)
    returns (t: Trace)
    requires |d0| == |adj| && |p0| == |adj| && s < |adj|
    requires stable0 == RelaxedExcept(adj, d0, s) && fresh0 == Untouched(d0, p0)
    ensures fresh0 ==> stable0
    ensures RunInv(adj, d0[s := Fin(0)], p0, multiset{(0, s)}, s, d0, p0, stable0, fresh0, t, -1)
  {
    var d := d0[s := Fin(0)];
    if fresh0 {
      forall u | 0 <= u < |adj| && u != s ensures Relaxed(adj, d0, u) {
        assert d0[u] == Inf;
      }
    }
    if stable0 {
      forall u | 0 <= u < |adj| && u != s
        ensures Relaxed(adj, d, u)
      {
        assert Relaxed(adj, d0, u);
      }
      assert PendingOrRelaxed(adj, d, multiset{(0, s)}, s);
    }
    t := Trace(seq(|adj|, _ => []), seq(|adj|, _ => 0), seq(|adj|, _ => 0), 1);
    if fresh0 {
      assert IsWalk(adj, [], s, s);
      assert FreshInv(adj, d, p0, s, t);
    }
  }

  /** Popping a least entry: the other reached vertices stay pending or
      relaxed; a stale entry was not the pending one of its vertex. */
  lemma Pop(adj: seq<seq<Edge>>, d: seq<Dist>, pq: multiset<Entry>, entry: Entry)
    requires Settling(adj, d, pq, -1) && QueueOk(d, pq) && entry in pq
    ensures QueueOk(d, pq - multiset{entry})
    ensures Settling(adj, d, pq - multiset{entry}, entry.1)
    ensures entry.0 != d[entry.1].n ==> Settling(adj, d, pq - multiset{entry}, -1)
  {
    var rest := pq - multiset{entry};
    assert pq == rest + multiset{entry};
    forall x | 0 <= x < |adj|
      ensures x != entry.1 ==> PendingOrRelaxed(adj, d, rest, x)
      ensures entry.0 != d[entry.1].n ==> PendingOrRelaxed(adj, d, rest, x)
    {
      assert PendingOrRelaxed(adj, d, pq, x);
    }
  }

  /** A run whose heap is empty left every vertex relaxed. */
  lemma Drained(adj: seq<seq<Edge>>, d: seq<Dist>)
    requires Settling(adj, d, multiset{}, -1)
    ensures Feasible(adj, d)
  {
    forall u | 0 <= u < |adj| ensures Relaxed(adj, d, u) {
      assert PendingOrRelaxed(adj, d, multiset{}, u);
    }
  }

  // ---------------------------------------------------------------------
  // dijkstra (djiktra.py:59-79)
  // ---------------------------------------------------------------------

  method Dijkstra(g: Graph, startName: string) returns (r: Outcome)
    requires g.Valid() && NonNegative(g.adj)
    modifies g
    ensures g.Valid()
    ensures g.vertices == old(g.vertices) && g.names == old(g.names) && g.adj == old(g.adj)
    ensures startName !in g.vertices ==>
      r == Fail(KeyError(startName)) && g.dist == old(g.dist) && g.prev == old(g.prev)
    ensures startName in g.vertices ==>
      var s := g.vertices[startName];
      r == Pass &&
      g.dist[s] == Fin(0) && g.prev[s] == old(g.prev[s]) &&
      NoWorse(old(g.dist), old(g.prev), g.dist, g.prev) &&
      Relinked(g.adj, old(g.dist), g.dist, g.prev, s) &&
      (old(Feasible(g.adj, g.dist)) && old(g.dist[s]) == Fin(0) ==> g.dist == old(g.dist) && g.prev == old(g.prev)) &&
      (old(RelaxedExcept(g.adj, g.dist, s)) ==> Feasible(g.adj, g.dist)) &&
      (old(Untouched(g.dist, g.prev)) ==> ShortestPathTree(g.adj, g.dist, g.prev, s))
  {
    var found := g.GetVertex(startName);
    if found.Err? {
      return Fail(found.error);
    }
    var s := found.value;
    ghost var d0, p0, adj := g.dist, g.prev, g.adj;
    ghost var fresh0 := Untouched(g.dist, g.prev);
    ghost var stable0 := RelaxedExcept(g.adj, g.dist, s);
    ghost var idle0 := Feasible(g.adj, g.dist) && g.dist[s] == Fin(0);
    ghost var t := Start(adj, d0, p0, s, stable0, fresh0);

    g.dist := g.dist[s := Fin(0)];
    var pq: multiset<Entry> := multiset{(0, s)};
    var entry: Entry;

    while pq != multiset{}
      invariant g.Valid() && g.adj == adj
      invariant g.vertices == old(g.vertices) && g.names == old(g.names)
      invariant RunInv(adj, g.dist, g.prev, pq, s, d0, p0, stable0, fresh0, t, -1)
      invariant idle0 ==> g.dist == d0 && g.prev == p0
      decreases InfCount(g.dist), FinSum(g.dist), |pq|
    {
      entry, pq, t := Step(g, pq, s, d0, p0, stable0, fresh0, t);
    }
    if stable0 {
      Drained(adj, g.dist);
    }
    if fresh0 {
      FreshFinish(adj, g.dist, g.prev, s, t);
    }
    r := Pass;
  }

  /** One turn of the `while pq` loop (djiktra.py:66-79): pop an entry of
      least distance, skip it if stale, otherwise relax the edges of its
      vertex.  A stale entry changes nothing but the heap; an entry that is
      not stale relaxes exactly the edges of its vertex (Relaxation). */
  method Step(g: Graph, pq: multiset<Entry>, ghost s: nat, ghost d0: seq<Dist>, ghost p0: seq<Option<nat>>,
              ghost stable0: bool, ghost fresh0: bool, ghost t: Trace)
    returns (entry: Entry, pq': multiset<Entry>, ghost t': Trace)
    requires pq != multiset{}
    requires g.Valid() && NonNegative(g.adj)
    requires RunInv(g.adj, g.dist, g.prev, pq, s, d0, p0, stable0, fresh0, t, -1)
    modifies g
    ensures g.Valid() && g.adj == old(g.adj) && g.vertices == old(g.vertices) && g.names == old(g.names)
    ensures RunInv(g.adj, g.dist, g.prev, pq', s, d0, p0, stable0, fresh0, t', -1)
    ensures Progress(g.dist, pq', old(g.dist), pq)
    ensures entry in pq && forall f :: f in pq ==> entry.0 <= f.0
    ensures entry.1 < |old(g.dist)| && old(g.dist[entry.1]).Fin?
    ensures entry.0 > old(g.dist[entry.1]).n ==>
      g.dist == old(g.dist) && g.prev == old(g.prev) && pq' == pq - multiset{entry}
    ensures entry.0 <= old(g.dist[entry.1]).n ==>
      Labels(g.dist, g.prev, pq') == RelaxAll(g.adj[entry.1], entry.1, entry.0, Labels(old(g.dist), old(g.prev), pq - multiset{entry})) &&
      Relaxed(g.adj, g.dist, entry.1)
    ensures Feasible(g.adj, old(g.dist)) ==> g.dist == old(g.dist) && g.prev == old(g.prev)
  {
    ghost var least := MinEntry(pq);
    entry :| entry in pq && forall f :: f in pq ==> entry.0 <= f.0;
    var currentDist, u := entry.0, entry.1;
    pq' := pq - multiset{entry};
    t' := t;
    PopInv(g.adj, g.dist, g.prev, pq, entry, s, d0, p0, stable0, fresh0, t);
    // a stale entry: u was improved after this entry was pushed
    if currentDist > g.dist[u].n {
      return;
    }
    if Feasible(g.adj, g.dist) {
      assert Relaxed(g.adj, g.dist, u);
      RelaxAllIdle(g.adj[u], u, currentDist, Labels(g.dist, g.prev, pq'));
    }
    pq', t' := RelaxEdges(g, u, pq', s, d0, p0, stable0, fresh0, t);
  }

  lemma QueueOkPop(d: seq<Dist>, pq: multiset<Entry>, entry: Entry)
    requires QueueOk(d, pq) && entry in pq
    ensures QueueOk(d, pq - multiset{entry})
    ensures entry.1 < |d| && AtMost(d[entry.1], entry.0)
  {
  }

  /** heappop keeps the run's invariant, with the popped vertex excused from
      Settling until its edges are relaxed, or not excused at all when the
      entry is stale. */
  lemma PopInv(adj: seq<seq<Edge>>, d: seq<Dist>, prev: seq<Option<nat>>, pq: multiset<Entry>, entry: Entry,
               s: nat, d0: seq<Dist>, p0: seq<Option<nat>>, stable0: bool, fresh0: bool, t: Trace)
    requires RunInv(adj, d, prev, pq, s, d0, p0, stable0, fresh0, t, -1) && entry in pq
    ensures |pq - multiset{entry}| < |pq|
    ensures entry.1 < |d| && AtMost(d[entry.1], entry.0)
    ensures RunInv(adj, d, prev, pq - multiset{entry}, s, d0, p0, stable0, fresh0, t, entry.1)
    ensures entry.0 != d[entry.1].n ==> RunInv(adj, d, prev, pq - multiset{entry}, s, d0, p0, stable0, fresh0, t, -1)
  {
    if stable0 {
      Pop(adj, d, pq, entry);
    }
    QueueOkPop(d, pq, entry);
  }

  /** The `for edge in u.edges` loop of dijkstra (djiktra.py:72-79) for an
      entry that is not stale: afterwards every edge out of u is relaxed. */
  method RelaxEdges(g: Graph, u: nat, pq: multiset<Entry>, ghost s: nat,
                    ghost d0: seq<Dist>, ghost p0: seq<Option<nat>>, ghost stable0: bool, ghost fresh0: bool,
                    ghost t: Trace)
    returns (pq': multiset<Entry>, ghost t': Trace)
    requires g.Valid() && NonNegative(g.adj) && u < |g.adj| && u < |g.dist| && g.dist[u].Fin?
    requires RunInv(g.adj, g.dist, g.prev, pq, s, d0, p0, stable0, fresh0, t, u)
    modifies g
    ensures g.Valid() && g.adj == old(g.adj) && g.vertices == old(g.vertices) && g.names == old(g.names)
    ensures RunInv(g.adj, g.dist, g.prev, pq', s, d0, p0, stable0, fresh0, t', -1)
    ensures g.dist[u] == old(g.dist[u]) && Relaxed(g.adj, g.dist, u)
    ensures (g.dist == old(g.dist) && pq' == pq) || LexLess(g.dist, old(g.dist))
    ensures Labels(g.dist, g.prev, pq') == RelaxAll(g.adj[u], u, old(g.dist[u]).n, Labels(old(g.dist), old(g.prev), pq))
  {
    pq', t' := pq, t;
    ghost var adj := g.adj;
    ghost var dist0, prev0 := g.dist, g.prev;
    var du := g.dist[u].n;
    var edges := g.adj[u];
    var i := 0;
    assert edges[..0] == [];
    while i < |edges|
      invariant 0 <= i <= |edges| && edges == adj[u]
      invariant g.Valid() && g.adj == adj
      invariant g.vertices == old(g.vertices) && g.names == old(g.names)
      invariant g.dist[u] == Fin(du)
      invariant RunInv(adj, g.dist, g.prev, pq', s, d0, p0, stable0, fresh0, t', u)
      invariant RelaxedUpTo(edges, i, du, g.dist)
      invariant Labels(g.dist, g.prev, pq') == RelaxAll(edges[..i], u, du, Labels(dist0, prev0, pq))
    {
      ghost var dBefore := g.dist;
      pq', t' := RelaxEdge(g, u, du, i, pq', s, d0, p0, stable0, fresh0, t');
      RelaxedUpToStep(edges, i, du, dBefore, g.dist);
      RelaxAllSnoc(edges, i, u, du, Labels(dist0, prev0, pq));
      i := i + 1;
    }
    assert edges[..i] == edges;
    EdgesDone(adj, g.dist, g.prev, pq', s, d0, p0, stable0, fresh0, t', u, du, Labels(dist0, prev0, pq));
  }

  /** The loop over edges[..i + 1] is the loop over edges[..i] and then edge i. */
  lemma RelaxAllSnoc(edges: seq<Edge>, i: nat, u: nat, du: nat, st: Labels)
    requires i < |edges|
    ensures RelaxAll(edges[..i + 1], u, du, st) == RelaxOne(RelaxAll(edges[..i], u, du, st), u, du, edges[i])
  {
    assert edges[..i + 1][..i] == edges[..i];
  }

  /** After the last edge of u: u is relaxed, so it no longer needs excusing
      from Settling, and the distances dropped in the measure or stayed. */
  lemma EdgesDone(adj: seq<seq<Edge>>, d: seq<Dist>, prev: seq<Option<nat>>, pq: multiset<Entry>,
                  s: nat, d0: seq<Dist>, p0: seq<Option<nat>>, stable0: bool, fresh0: bool, t: Trace,
                  u: nat, du: nat, st: Labels)
    requires u < |adj| && RunInv(adj, d, prev, pq, s, d0, p0, stable0, fresh0, t, u)
    requires d[u] == Fin(du) && RelaxedUpTo(adj[u], |adj[u]|, du, d)
    requires Labels(d, prev, pq) == RelaxAll(adj[u], u, du, st)
    ensures RunInv(adj, d, prev, pq, s, d0, p0, stable0, fresh0, t, -1)
    ensures Relaxed(adj, d, u)
    ensures (d == st.d && pq == st.q) || LexLess(d, st.d)
  {
    RelaxAllProgress(adj[u], u, du, st);
    AllEdgesRelaxed(adj, d, u, du);
    if stable0 {
      assert PendingOrRelaxed(adj, d, pq, u);
    }
  }

  /** The body of the `for edge` loop (djiktra.py:73-79) for edge i of u:
      if the way through u is strictly shorter, v takes the new distance,
      u as previous and a new heap entry; otherwise nothing changes. */
  method RelaxEdge(g: Graph, u: nat, du: nat, i: nat, pq: multiset<Entry>, ghost s: nat,
                   ghost d0: seq<Dist>, ghost p0: seq<Option<nat>>, ghost stable0: bool, ghost fresh0: bool,
                   ghost t: Trace)
    returns (pq': multiset<Entry>, ghost t': Trace)
    requires g.Valid() && NonNegative(g.adj) && u < |g.adj| && i < |g.adj[u]|
    requires u < |g.dist| && g.dist[u] == Fin(du)
    requires RunInv(g.adj, g.dist, g.prev, pq, s, d0, p0, stable0, fresh0, t, u)
    modifies g
    ensures g.Valid() && g.adj == old(g.adj) && g.vertices == old(g.vertices) && g.names == old(g.names)
    ensures Labels(g.dist, g.prev, pq') == RelaxOne(Labels(old(g.dist), old(g.prev), pq), u, du, g.adj[u][i])
    ensures g.dist[u] == Fin(du)
    ensures RunInv(g.adj, g.dist, g.prev, pq', s, d0, p0, stable0, fresh0, t', u)
    ensures var e := g.adj[u][i];
      e.dest < |g.dist| && AtMost(g.dist[e.dest], du + e.weight)
    ensures forall v :: 0 <= v < |g.dist| ==> Le(g.dist[v], old(g.dist[v]))
  {
    var edge := g.adj[u][i];
    var v := edge.dest;
    var newDist: nat := du + edge.weight;
    pq', t' := pq, t;
    ghost var st := Labels(g.dist, g.prev, pq);
    assert v < |st.d| && v < |st.p|;
    if Improves(newDist, g.dist[v]) {
      assert RelaxOne(st, u, du, edge) == Labels(st.d[v := Fin(newDist)], st.p[v := Some(u)], pq + multiset{(newDist, v)});
      t' := LowerKeeps(g.adj, g.dist, g.prev, pq, s, d0, p0, stable0, fresh0, t, u, i, newDist);
      g.dist := g.dist[v := Fin(newDist)];
      g.prev := g.prev[v := Some(u)];
      pq' := pq + multiset{(newDist, v)};
    } else {
      assert RelaxOne(st, u, du, edge) == st;
    }
  }

  /** Lowering v = e.dest through edge i of u keeps the run invariant (the
      trace grows by one step on an untouched start). */
  lemma LowerKeeps(adj: seq<seq<Edge>>, d: seq<Dist>, prev: seq<Option<nat>>, pq: multiset<Entry>, s: nat,
                   d0: seq<Dist>, p0: seq<Option<nat>>, stable0: bool, fresh0: bool, t: Trace,
                   u: nat, i: nat, k: nat) returns (t': Trace)
    requires EdgesOk(adj) && NonNegative(adj) && u < |adj| && i < |adj[u]|
    requires RunInv(adj, d, prev, pq, s, d0, p0, stable0, fresh0, t, u) && d[u].Fin?
    requires k == d[u].n + adj[u][i].weight && Improves(k, d[adj[u][i].dest])
    ensures var v := adj[u][i].dest;
      RunInv(adj, d[v := Fin(k)], prev[v := Some(u)], pq + multiset{(k, v)}, s, d0, p0, stable0, fresh0, t', u)
  {
    var e := adj[u][i];
    var v := e.dest;
    assert e in adj[u];
    t' := t;
    QueueStep(d, pq, v, k);
    NoWorseStep(d0, p0, d, prev, v, k, u);
    RelinkStep(adj, d0, d, prev, s, u, e, k);
    if stable0 {
      SettleStep(adj, d, pq, u, v, k);
    }
    if fresh0 {
      t' := FreshStep(adj, d, prev, s, t, u, i, k);
    }
  }

  /** Lowering v to k and linking it to u keeps NoWorse from any earlier state. */
  lemma NoWorseStep(d0: seq<Dist>, p0: seq<Option<nat>>, d: seq<Dist>, p: seq<Option<nat>>, v: nat, k: nat, u: nat)
    requires NoWorse(d0, p0, d, p) && v < |d| && Improves(k, d[v])
    ensures NoWorse(d0, p0, d[v := Fin(k)], p[v := Some(u)])
  {
  }

  /** Lowering v to k and pushing (k, v) keeps every heap entry valid. */
  lemma QueueStep(d: seq<Dist>, pq: multiset<Entry>, v: nat, k: nat)
    requires QueueOk(d, pq) && v < |d| && Improves(k, d[v])
    ensures QueueOk(d[v := Fin(k)], pq + multiset{(k, v)})
  {
    forall e | e in pq + multiset{(k, v)}
      ensures e.1 < |d| && AtMost(d[v := Fin(k)][e.1], e.0)
    {
      if e != (k, v) {
        assert e in pq;
      }
    }
  }

  /** Lowering v (not the vertex being expanded) and pushing its new entry
      keeps every other reached vertex pending or relaxed. */
  lemma SettleStep(adj: seq<seq<Edge>>, d: seq<Dist>, pq: multiset<Entry>, u: nat, v: nat, k: nat)
    requires Settling(adj, d, pq, u) && v < |d| && u < |d| && Improves(k, d[v])
    ensures Settling(adj, d[v := Fin(k)], pq + multiset{(k, v)}, u)
  {
    var d', pq' := d[v := Fin(k)], pq + multiset{(k, v)};
    forall x | 0 <= x < |adj| && x != u
      ensures PendingOrRelaxed(adj, d', pq', x)
    {
      assert PendingOrRelaxed(adj, d, pq, x);
      if x != v && d[x].Fin? && (d[x].n, x) !in pq {
        assert Relaxed(adj, d, x);
        forall e | e in adj[x] ensures e.dest < |d'| && AtMost(d'[e.dest], d'[x].n + e.weight) {
          assert e.dest < |d| && AtMost(d[e.dest], d[x].n + e.weight);
        }
      }
    }
  }

  /** Lowering v = e.dest to k = u.distance + e.weight through the edge e of u
      keeps every lowered vertex hanging off its previous vertex: v now hangs
      off u, and a vertex hanging off v only got slack. */
  lemma RelinkStep(adj: seq<seq<Edge>>, d0: seq<Dist>, d: seq<Dist>, prev: seq<Option<nat>>, s: nat,
                   u: nat, e: Edge, k: nat)
    requires Relinked(adj, d0, d, prev, s) && EdgesOk(adj) && NonNegative(adj)
    requires u < |adj| && s < |adj| && e in adj[u] && d[u].Fin? && d[s] == Fin(0)
    requires k == d[u].n + e.weight && Improves(k, d[e.dest])
    ensures Relinked(adj, d0, d[e.dest := Fin(k)], prev[e.dest := Some(u)], s)
  {
    var v := e.dest;
    var d', prev' := d[v := Fin(k)], prev[v := Some(u)];
    var j :| 0 <= j < |adj[u]| && adj[u][j] == e;
    assert e.weight >= 0;
    assert u != v && v != s;
    forall x | 0 <= x < |adj| && x != s && d'[x] != d0[x]
      ensures LinkedFrom(adj, d', prev', x)
    {
      if x != v {
        assert LinkedFrom(adj, d, prev, x);
        var y := prev[x].value;
        var f :| f in adj[y] && f.dest == x && d[y].n + f.weight <= d[x].n;
        assert d'[y].Fin? && d'[y].n <= d[y].n;
      }
    }
  }

  /** Distances, previous links and heap: what the `for edge` loop updates. */
  datatype Labels = Labels(d: seq<Dist>, p: seq<Option<nat>>, q: multiset<Entry>)

  /** The body of the `for edge` loop for edge e of u at distance du: when
      du + weight is below e.dest's distance, e.dest takes it with u as
      previous vertex and the entry is pushed; otherwise nothing changes. */
  function RelaxOne(st: Labels, u: nat, du: nat, e: Edge): Labels {
    var k := du + e.weight;
    if e.dest < |st.d| && e.dest < |st.p| && k >= 0 && Improves(k, st.d[e.dest])
    then Labels(st.d[e.dest := Fin(k)], st.p[e.dest := Some(u)], st.q + multiset{(k, e.dest)})
    else st
  }

  /** The `for edge` loop over the edges es of u, first to last. */
  function RelaxAll(es: seq<Edge>, u: nat, du: nat, st: Labels): Labels
    decreases |es|
  {
    if es == [] then st else RelaxOne(RelaxAll(es[..|es| - 1], u, du, st), u, du, es[|es| - 1])
  }

  /** What the loop does, whoever runs it: RelaxAll is the Relaxation of its
      edges. */
  lemma {:induction false} RelaxAllFacts(es: seq<Edge>, u: nat, du: nat, st: Labels)
    requires |st.d| == |st.p|
    ensures var r := RelaxAll(es, u, du, st); Relaxation(es, u, du, st.d, st.p, st.q, r.d, r.p, r.q)
    decreases |es|
  {
    if es == [] {
      RelaxationNone(u, du, st.d, st.p, st.q);
    } else {
      var init, e := es[..|es| - 1], es[|es| - 1];
      assert es == init + [e];
      RelaxAllFacts(init, u, du, st);
      var r := RelaxAll(init, u, du, st);
      RelaxationStep(init, e, u, du, st, r);
    }
  }

  /** Relaxing one more edge e extends the Relaxation of es to es + [e]. */
  lemma RelaxationStep(es: seq<Edge>, e: Edge, u: nat, du: nat, st: Labels, r: Labels)
    requires Relaxation(es, u, du, st.d, st.p, st.q, r.d, r.p, r.q)
    ensures var r' := RelaxOne(r, u, du, e); Relaxation(es + [e], u, du, st.d, st.p, st.q, r'.d, r'.p, r'.q)
  {
    var k := du + e.weight;
    if e.dest < |r.d| && e.dest < |r.p| && k >= 0 && Improves(k, r.d[e.dest]) {
      RelaxationLower(es, e, u, du, st.d, st.p, st.q, r.d, r.p, r.q);
      LowerIs(r, u, du, e);
    } else {
      RelaxationSkip(es, e, u, du, st.d, st.p, st.q, r.d, r.p, r.q);
    }
  }

  lemma LowerIs(r: Labels, u: nat, du: nat, e: Edge)
    requires e.dest < |r.d| && e.dest < |r.p| && du + e.weight >= 0 && Improves(du + e.weight, r.d[e.dest])
    ensures RelaxOne(r, u, du, e) ==
      Labels(r.d[e.dest := Fin(du + e.weight)], r.p[e.dest := Some(u)], r.q + multiset{(du + e.weight, e.dest)})
  {
  }

  /** A vertex that no edge of es enters keeps its distance and previous. */
  lemma {:induction false} RelaxAllFrame(es: seq<Edge>, u: nat, du: nat, st: Labels, v: nat)
    requires v < |st.d| && v < |st.p| && forall e :: e in es ==> e.dest != v
    ensures |RelaxAll(es, u, du, st).d| == |st.d| && |RelaxAll(es, u, du, st).p| == |st.p|
    ensures RelaxAll(es, u, du, st).d[v] == st.d[v] && RelaxAll(es, u, du, st).p[v] == st.p[v]
    decreases |es|
  {
    if es != [] {
      var init, e := es[..|es| - 1], es[|es| - 1];
      assert forall f :: f in init ==> f in es;
      assert e in es;
      RelaxAllFrame(init, u, du, st, v);
    }
  }

  /** The loop changes nothing, or it moves the distances down the
      termination measure. */
  lemma {:induction false} RelaxAllProgress(es: seq<Edge>, u: nat, du: nat, st: Labels)
    ensures var r := RelaxAll(es, u, du, st); r == st || LexLess(r.d, st.d)
    decreases |es|
  {
    if es != [] {
      var init, e := es[..|es| - 1], es[|es| - 1];
      RelaxAllProgress(init, u, du, st);
      var r := RelaxAll(init, u, du, st);
      var k := du + e.weight;
      if e.dest < |r.d| && e.dest < |r.p| && k >= 0 && Improves(k, r.d[e.dest]) {
        LowerOne(r.d, e.dest, k);
      }
    }
  }

  /** When every edge of es is already relaxed from du, the loop changes
      nothing, not even the heap. */
  lemma {:induction false} RelaxAllIdle(es: seq<Edge>, u: nat, du: nat, st: Labels)
    requires forall e :: e in es ==> e.dest < |st.d| && AtMost(st.d[e.dest], du + e.weight)
    ensures RelaxAll(es, u, du, st) == st
    decreases |es|
  {
    if es != [] {
      var init := es[..|es| - 1];
      assert forall e :: e in init ==> e in es;
      RelaxAllIdle(init, u, du, st);
      assert es[|es| - 1] in es;
    }
  }

  /** Before any edge of u is relaxed nothing has changed. */
  lemma RelaxationNone(u: nat, du: nat, d: seq<Dist>, p: seq<Option<nat>>, q: multiset<Entry>)
    requires |d| == |p|
    ensures Relaxation([], u, du, d, p, q, d, p, q)
  {
    assert q - q == multiset{};
  }

  /** An edge that does not improve its target changes nothing. */
  lemma RelaxationSkip(es: seq<Edge>, e: Edge, u: nat, du: nat,
                       d0: seq<Dist>, p0: seq<Option<nat>>, q0: multiset<Entry>,
                       d: seq<Dist>, p: seq<Option<nat>>, q: multiset<Entry>)
    requires Relaxation(es, u, du, d0, p0, q0, d, p, q)
    ensures Relaxation(es + [e], u, du, d0, p0, q0, d, p, q)
  {
    forall f | f in es ensures f in es + [e] {
    }
  }

  /** An edge e of u that improves its target v = e.dest sets v to
      du + e.weight with u as previous and pushes the new entry. */
  lemma RelaxationLower(es: seq<Edge>, e: Edge, u: nat, du: nat,
                        d0: seq<Dist>, p0: seq<Option<nat>>, q0: multiset<Entry>,
                        d: seq<Dist>, p: seq<Option<nat>>, q: multiset<Entry>)
    requires Relaxation(es, u, du, d0, p0, q0, d, p, q)
    requires e.dest < |d| && du + e.weight >= 0 && Improves(du + e.weight, d[e.dest])
    ensures Relaxation(es + [e], u, du, d0, p0, q0, d[e.dest := Fin(du + e.weight)], p[e.dest := Some(u)],
                       q + multiset{(du + e.weight, e.dest)})
  {
    var v, k := e.dest, du + e.weight;
    var d', p', q' := d[v := Fin(k)], p[v := Some(u)], q + multiset{(k, v)};
    var es' := es + [e];
    assert e in es';
    forall f | f in es ensures f in es' {
    }
    assert d'[v] != d0[v];
    assert q' - q0 == (q - q0) + multiset{(k, v)};
    forall x | x in q' - q0
      ensures exists f :: f in es' && x.0 == du + f.weight && x.1 == f.dest
    {
      if x != (k, v) {
        assert x in q - q0;
      }
    }
  }

  /** The first i edges of the list are relaxed from distance du. */
  ghost predicate RelaxedUpTo(edges: seq<Edge>, i: nat, du: nat, d: seq<Dist>) {
    i <= |edges| &&
    forall j :: 0 <= j < i ==> edges[j].dest < |d| && AtMost(d[edges[j].dest], du + edges[j].weight)
  }

  /** Lowering distances keeps earlier edges relaxed, and relaxing edge i
      extends the prefix. */
  lemma RelaxedUpToStep(edges: seq<Edge>, i: nat, du: nat, d: seq<Dist>, d': seq<Dist>)
    requires RelaxedUpTo(edges, i, du, d) && i < |edges| && |d'| == |d|
    requires forall v :: 0 <= v < |d| ==> Le(d'[v], d[v])
    requires edges[i].dest < |d'| && AtMost(d'[edges[i].dest], du + edges[i].weight)
    ensures RelaxedUpTo(edges, i + 1, du, d')
  {
    forall j | 0 <= j < i + 1
      ensures edges[j].dest < |d'| && AtMost(d'[edges[j].dest], du + edges[j].weight)
    {
      if j < i {
        assert Le(d'[edges[j].dest], d[edges[j].dest]);
      }
    }
  }

  /** Once the loop has passed every edge of u, u is relaxed. */
  lemma AllEdgesRelaxed(adj: seq<seq<Edge>>, d: seq<Dist>, u: nat, du: nat)
    requires u < |adj| && |d| == |adj| && d[u] == Fin(du)
    requires RelaxedUpTo(adj[u], |adj[u]|, du, d)
    ensures Relaxed(adj, d, u)
  {
    forall e: Edge | e in adj[u]
      ensures e.dest < |d| && AtMost(d[e.dest], du + e.weight)
    {
      var j :| 0 <= j < |adj[u]| && adj[u][j] == e;
    }
  }

  /** dijkstra as a second run from another start needs it: the start is
      looked up first, then every distance is reset to inf and every previous
      link to None before the loop.  A run from a known start then always
      leaves a shortest-path tree, whose links have no cycle, whatever the
      earlier runs left. */
  method DijkstraFresh(g: Graph, startName: string) returns (r: Outcome)
    requires g.Valid() && NonNegative(g.adj)
    modifies g
    ensures g.Valid()
    ensures g.vertices == old(g.vertices) && g.names == old(g.names) && g.adj == old(g.adj)
    ensures startName !in g.vertices ==>
      r == Fail(KeyError(startName)) && g.dist == old(g.dist) && g.prev == old(g.prev)
    ensures startName in g.vertices ==>
      r == Pass && ShortestPathTree(g.adj, g.dist, g.prev, g.vertices[startName])
  {
    if startName !in g.vertices {
      return Fail(KeyError(startName));
    }
    g.dist := seq(|g.adj|, _ => Inf);
    g.prev := seq(|g.adj|, _ => None);
    r := Dijkstra(g, startName);
  }

  // ---------------------------------------------------------------------
  // reconstruct_path (djiktra.py:86-94)
  // ---------------------------------------------------------------------

  /** reconstruct_path: the names along the previous links that end at end,
      from the vertex without a previous link up to end.  The start argument
      is not used.  The loop ends only if the links have no cycle, which a run
      of Dijkstra on an untouched graph guarantees (ShortestPathTree). */
  method ReconstructPath(g: Graph, start: string, end: string) returns (r: Result<seq<string>>, ghost chain: seq<nat>)
    requires g.Valid() && Acyclic(g.prev)
    ensures end !in g.vertices ==> r == Err(KeyError(end))
    ensures end in g.vertices ==>
      r.Ok? && IsChain(g.prev, chain) && chain[|chain| - 1] == g.vertices[end] &&
      |r.value| == |chain| && forall i :: 0 <= i < |chain| ==> r.value[i] == g.names[chain[i]]
  {
    var path: seq<string> := [];
    var found := g.GetVertex(end);
    if found.Err? {
      return Err(found.error), [];
    }
    ghost var rank :| Ranked(g.prev, rank);
    var current: Option<nat> := Some(found.value);
    ghost var visited: seq<nat> := [];
    while current.Some?
      invariant current.Some? ==> current.value < |g.prev|
      invariant |path| == |visited|
      invariant forall i :: 0 <= i < |visited| ==> visited[i] < |g.prev| && path[i] == g.names[visited[i]]
      invariant visited == [] ==> current == Some(found.value)
      invariant visited != [] ==> visited[0] == found.value && g.prev[visited[|visited| - 1]] == current
      invariant forall i :: 0 <= i < |visited| - 1 ==> g.prev[visited[i]] == Some(visited[i + 1])
      decreases if current.Some? then rank[current.value] + 1 else 0
    {
      path := path + [g.names[current.value]];
      visited := visited + [current.value];
      current := g.prev[current.value];
    }
    chain := Reversed(visited);
    r := Ok(Reversed(path));
    forall i | 0 <= i < |chain| - 1
      ensures g.prev[chain[i + 1]] == Some(chain[i])
    {
      assert chain[i + 1] == visited[|visited| - 2 - i];
    }
  }
}
