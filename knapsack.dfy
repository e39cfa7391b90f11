/** The 0/1 knapsack of mochila.py (and its copies mochila2.py, mochila3.py,
    mochila4.py): Graph.build grows the tree of take/skip decisions
    breadth-first, and KnapsackSolver.solve searches it depth-first for the
    terminal state of highest priority and reads the decisions back from
    the parent links.

    The Python Node objects live in an arena: Graph.nodes is a list of node
    records, and an Edge, a parent link or the start node is a slot number in
    that list.  Slot 0 is self.start. */
module Knapsack {
  import opened Basics

  /** Item(name, weight, priority). */
  datatype Item = Item(name: string, weight: int, priority: int)

  /** The decision strings "take" and "skip". */
  datatype Action = Take | Skip

  /** Edge(next_node, decision), next_node as a slot of the arena. */
  datatype Edge = Edge(next: nat, decision: Action)

  /** Node(index, weight, priority) with its edges, parent and action;
      parent and action are None only at the start node. */
  datatype Node = Node(index: nat, weight: int, priority: int, edges: seq<Edge>, parent: Option<nat>, action: Option<Action>)

  /** self.start = Node(0, 0, 0). */
  function Start(): Node {
    Node(0, 0, 0, [], None, None)
  }

  /** A node without its edges: what is fixed when the node is created. */
  function Label(n: Node): Node {
    n.(edges := [])
  }

  /** The fit test of build (mochila.py:87). */
  predicate Fits(n: Node, it: Item, capacity: int) {
    n.weight + it.weight <= capacity
  }

  /** The child build creates below node n (in slot p) for item it: skip
      keeps the weight and priority, take adds the item's. */
  function Child(n: Node, p: nat, it: Item, a: Action): (c: Node)
    ensures c.index == n.index + 1 && c.edges == [] && c.parent == Some(p) && c.action == Some(a)
    ensures a == Skip ==> c.weight == n.weight && c.priority == n.priority
    ensures a == Take ==> c.weight == n.weight + it.weight && c.priority == n.priority + it.priority
  {
    match a
    case Skip => Node(n.index + 1, n.weight, n.priority, [], Some(p), Some(Skip))
    case Take => Node(n.index + 1, n.weight + it.weight, n.priority + it.priority, [], Some(p), Some(Take))
  }

  // ---------------------------------------------------------------------
  // What every arena reachable from Graph(items, capacity) satisfies
  // ---------------------------------------------------------------------

  /** Node j is the start node, or the child its parent link and action say,
      created for the item at its parent's index, listed among its parent's
      edges, and, when it takes the item, the item fitted. */
  ghost predicate LinkOk(items: seq<Item>, capacity: int, nodes: seq<Node>, j: nat)
    requires j < |nodes|
  {
    if j == 0 then Label(nodes[0]) == Start()
    else
      nodes[j].parent.Some? && nodes[j].parent.value < j && nodes[j].action.Some? &&
      var p, a := nodes[j].parent.value, nodes[j].action.value;
      nodes[p].index < |items| &&
      (a == Take ==> Fits(nodes[p], items[nodes[p].index], capacity)) &&
      Label(nodes[j]) == Child(nodes[p], p, items[nodes[p].index], a) &&
      Edge(j, a) in nodes[p].edges
  }

  /** Every edge of node j leads forward to a child of j made by the edge's
      decision. */
  ghost predicate EdgesOk(nodes: seq<Node>, j: nat)
    requires j < |nodes|
  {
    forall e :: e in nodes[j].edges ==>
      j < e.next < |nodes| && nodes[e.next].parent == Some(j) && nodes[e.next].action == Some(e.decision)
  }

  ghost predicate Wf(items: seq<Item>, capacity: int, nodes: seq<Node>) {
    |nodes| > 0 &&
    (forall j :: 0 <= j < |nodes| ==> nodes[j].index <= |items|) &&
    (forall j :: 0 <= j < |nodes| ==> LinkOk(items, capacity, nodes, j)) &&
    (forall j :: 0 <= j < |nodes| ==> EdgesOk(nodes, j))
  }

  /** Node j has the edges build gives it: none at index len(items);
      otherwise the skip edge and then, if and only if the item fits, the
      take edge. */
  ghost predicate Expanded(items: seq<Item>, capacity: int, nodes: seq<Node>, j: nat)
    requires j < |nodes| && nodes[j].index <= |items|
  {
    var n := nodes[j];
    if n.index == |items| then n.edges == []
    else
      |n.edges| == (if Fits(n, items[n.index], capacity) then 2 else 1) &&
      n.edges[0].decision == Skip && (|n.edges| == 2 ==> n.edges[1].decision == Take)
  }

  /** Every node of the arena has been expanded. */
  ghost predicate Complete(items: seq<Item>, capacity: int, nodes: seq<Node>)
    requires forall j :: 0 <= j < |nodes| ==> nodes[j].index <= |items|
  {
    forall j :: 0 <= j < |nodes| ==> Expanded(items, capacity, nodes, j)
  }

  /** nodes' extends nodes by appends, and by appends to the edge lists. */
  ghost predicate Grows(nodes: seq<Node>, nodes': seq<Node>) {
    |nodes| <= |nodes'| &&
    forall j :: 0 <= j < |nodes| ==> Label(nodes'[j]) == Label(nodes[j]) && nodes[j].edges <= nodes'[j].edges
  }

  // ---------------------------------------------------------------------
  // One expansion step of build (mochila.py:66-100)
  // ---------------------------------------------------------------------

  /** Node.add_edge. */
  function AddEdge(n: Node, e: Edge): Node {
    n.(edges := n.edges + [e])
  }

  /** The arena after expanding node c: the skip child, then the take child
      if the item fits, appended to the arena and to c's edges. */
  function ExpandAt(items: seq<Item>, capacity: int, nodes: seq<Node>, c: nat): seq<Node>
    requires c < |nodes| && nodes[c].index < |items|
  {
    var n, m := nodes[c], |nodes|;
    var it := items[n.index];
    if Fits(n, it, capacity) then
      nodes[c := AddEdge(AddEdge(n, Edge(m, Skip)), Edge(m + 1, Take))] + [Child(n, c, it, Skip), Child(n, c, it, Take)]
    else
      nodes[c := AddEdge(n, Edge(m, Skip))] + [Child(n, c, it, Skip)]
  }

  /** The edges expansion gives node c. */
  function NewEdges(items: seq<Item>, capacity: int, nodes: seq<Node>, c: nat): seq<Edge>
    requires c < |nodes| && nodes[c].index < |items|
  {
    if Fits(nodes[c], items[nodes[c].index], capacity) then [Edge(|nodes|, Skip), Edge(|nodes| + 1, Take)]
    else [Edge(|nodes|, Skip)]
  }

  /** Expansion appends one child per new edge of c and changes nothing
      else but c's edges. */
  lemma ExpandShape(items: seq<Item>, capacity: int, nodes: seq<Node>, c: nat)
    requires c < |nodes| && nodes[c].index < |items|
    ensures var nodes', es := ExpandAt(items, capacity, nodes, c), NewEdges(items, capacity, nodes, c);
      |nodes'| == |nodes| + |es| &&
      nodes'[c] == nodes[c].(edges := nodes[c].edges + es) &&
      (forall j :: 0 <= j < |nodes| && j != c ==> nodes'[j] == nodes[j]) &&
      (forall t :: 0 <= t < |es| ==>
        es[t].next == |nodes| + t && nodes'[|nodes| + t] == Child(nodes[c], c, items[nodes[c].index], es[t].decision))
  {
    var n := nodes[c];
    assert AddEdge(AddEdge(n, Edge(|nodes|, Skip)), Edge(|nodes| + 1, Take)).edges == n.edges + [Edge(|nodes|, Skip), Edge(|nodes| + 1, Take)];
  }

  /** Expansion keeps the arena well formed and only grows it. */
  lemma ExpandWf(items: seq<Item>, capacity: int, nodes: seq<Node>, c: nat)
    requires Wf(items, capacity, nodes) && c < |nodes| && nodes[c].index < |items|
    ensures Wf(items, capacity, ExpandAt(items, capacity, nodes, c))
    ensures Grows(nodes, ExpandAt(items, capacity, nodes, c))
  {
    var nodes' := ExpandAt(items, capacity, nodes, c);
    ExpandGrows(items, capacity, nodes, c);
    forall j | 0 <= j < |nodes'| ensures nodes'[j].index <= |items| && LinkOk(items, capacity, nodes', j) {
      ExpandLink(items, capacity, nodes, c, j);
    }
    forall j | 0 <= j < |nodes'| ensures EdgesOk(nodes', j) {
      ExpandEdges(items, capacity, nodes, c, j);
    }
  }

  lemma ExpandGrows(items: seq<Item>, capacity: int, nodes: seq<Node>, c: nat)
    requires c < |nodes| && nodes[c].index < |items|
    ensures Grows(nodes, ExpandAt(items, capacity, nodes, c))
    ensures |ExpandAt(items, capacity, nodes, c)| > |nodes|
  {
    ExpandShape(items, capacity, nodes, c);
  }

  lemma ExpandLink(items: seq<Item>, capacity: int, nodes: seq<Node>, c: nat, j: nat)
    requires Wf(items, capacity, nodes) && c < |nodes| && nodes[c].index < |items|
    requires j < |ExpandAt(items, capacity, nodes, c)|
    ensures ExpandAt(items, capacity, nodes, c)[j].index <= |items|
    ensures LinkOk(items, capacity, ExpandAt(items, capacity, nodes, c), j)
  {
    var nodes', es := ExpandAt(items, capacity, nodes, c), NewEdges(items, capacity, nodes, c);
    ExpandShape(items, capacity, nodes, c);
    var m := |nodes|;
    if j >= m {
      assert nodes'[j] == Child(nodes[c], c, items[nodes[c].index], es[j - m].decision);
      assert es[j - m] in nodes'[c].edges;
    } else if j > 0 {
      assert LinkOk(items, capacity, nodes, j);
      var p := nodes[j].parent.value;
      assert Label(nodes'[p]) == Label(nodes[p]) && nodes[p].edges <= nodes'[p].edges;
    } else {
      assert LinkOk(items, capacity, nodes, 0);
    }
  }

  lemma ExpandEdges(items: seq<Item>, capacity: int, nodes: seq<Node>, c: nat, j: nat)
    requires Wf(items, capacity, nodes) && c < |nodes| && nodes[c].index < |items|
    requires j < |ExpandAt(items, capacity, nodes, c)|
    ensures EdgesOk(ExpandAt(items, capacity, nodes, c), j)
  {
    var nodes', es := ExpandAt(items, capacity, nodes, c), NewEdges(items, capacity, nodes, c);
    ExpandShape(items, capacity, nodes, c);
    if j < |nodes| {
      assert EdgesOk(nodes, j);
      forall e | e in nodes'[j].edges
        ensures j < e.next < |nodes'| && nodes'[e.next].parent == Some(j) && nodes'[e.next].action == Some(e.decision)
      {
        if e !in nodes[j].edges {
          assert j == c;
          var t :| 0 <= t < |es| && es[t] == e;
        }
      }
    }
  }

  /** The slots the edges lead to, in order. */
  function Targets(es: seq<Edge>): (r: seq<nat>)
    ensures |r| == |es| && forall t :: 0 <= t < |es| ==> r[t] == es[t].next
  {
    if |es| == 0 then [] else [es[0].next] + Targets(es[1..])
  }

  // ---------------------------------------------------------------------
  // Termination of build's queue loop
  // ---------------------------------------------------------------------

  /** 2^(d+1) - 1: the size of a full binary tree of height d. */
  function Pot(d: nat): (r: nat)
    ensures r >= 1
  {
    if d == 0 then 1 else 2 * Pot(d - 1) + 1
  }

  /** Every queued slot is in the arena. */
  ghost predicate Queued(nodes: seq<Node>, queue: seq<nat>) {
    forall t :: 0 <= t < |queue| ==> queue[t] < |nodes|
  }

  /** The most nodes the queue can still pop: a full tree below each
      queued node. */
  function Potential(n: nat, nodes: seq<Node>, queue: seq<nat>): nat
    requires Queued(nodes, queue)
  {
    if |queue| == 0 then 0
    else
      var i := nodes[queue[0]].index;
      (if i <= n then Pot(n - i) else 0) + Potential(n, nodes, queue[1..])
  }

  lemma {:induction false} PotentialConcat(n: nat, nodes: seq<Node>, a: seq<nat>, b: seq<nat>)
    requires Queued(nodes, a) && Queued(nodes, b)
    ensures Queued(nodes, a + b)
    ensures Potential(n, nodes, a + b) == Potential(n, nodes, a) + Potential(n, nodes, b)
  {
    if |a| == 0 {
      assert a + b == b;
    } else {
      assert (a + b)[0] == a[0] && (a + b)[1..] == a[1..] + b;
      PotentialConcat(n, nodes, a[1..], b);
    }
  }

  /** The potential depends only on the indices of the queued nodes. */
  lemma {:induction false} PotentialFrame(n: nat, nodes: seq<Node>, nodes': seq<Node>, queue: seq<nat>)
    requires Queued(nodes, queue) && Grows(nodes, nodes')
    ensures Queued(nodes', queue)
    ensures Potential(n, nodes', queue) == Potential(n, nodes, queue)
  {
    if |queue| > 0 {
      assert Label(nodes'[queue[0]]) == Label(nodes[queue[0]]);
      PotentialFrame(n, nodes, nodes', queue[1..]);
    }
  }

  // ---------------------------------------------------------------------
  // The queue of a build on a fresh graph
  // ---------------------------------------------------------------------

  /** Breadth-first order on a fresh graph: the queue holds the slots k,
      k + 1, ... up to the end of the arena; the nodes before k are
      expanded and those from k on have no edges yet. */
  ghost predicate Frontier(items: seq<Item>, capacity: int, nodes: seq<Node>, queue: seq<nat>, k: nat)
    requires forall j :: 0 <= j < |nodes| ==> nodes[j].index <= |items|
  {
    k + |queue| == |nodes| &&
    (forall t :: 0 <= t < |queue| ==> queue[t] == k + t) &&
    (forall j :: 0 <= j < k ==> Expanded(items, capacity, nodes, j)) &&
    (forall j :: k <= j < |nodes| ==> nodes[j].edges == [])
  }

  /** A step of build pops Pot(d) off the queue and pushes at most two
      children worth Pot(d - 1) each. */
  lemma ExpandPotential(items: seq<Item>, capacity: int, nodes: seq<Node>, queue: seq<nat>)
    requires Wf(items, capacity, nodes) && Queued(nodes, queue) && |queue| > 0
    requires nodes[queue[0]].index < |items|
    ensures var nodes' := ExpandAt(items, capacity, nodes, queue[0]);
      var queue' := queue[1..] + Targets(NewEdges(items, capacity, nodes, queue[0]));
      Queued(nodes', queue') &&
      Potential(|items|, nodes', queue') < Potential(|items|, nodes, queue)
  {
    var n, i := |items|, nodes[queue[0]].index;
    ExpandQueue(items, capacity, nodes, queue);
    assert Pot(n - i) == 2 * Pot(n - (i + 1)) + 1;
    FewChildren(Potential(n, nodes, queue[1..]), |NewEdges(items, capacity, nodes, queue[0])|, Pot(n - (i + 1)));
  }

  /** The queue after a step of build: the rest of the old queue, worth what
      it was, then the children, worth Pot(d - 1) each. */
  lemma ExpandQueue(items: seq<Item>, capacity: int, nodes: seq<Node>, queue: seq<nat>)
    requires Wf(items, capacity, nodes) && Queued(nodes, queue) && |queue| > 0
    requires nodes[queue[0]].index < |items|
    ensures var nodes', es := ExpandAt(items, capacity, nodes, queue[0]), NewEdges(items, capacity, nodes, queue[0]);
      Queued(nodes, queue[1..]) && Queued(nodes', queue[1..] + Targets(es)) && |es| <= 2 &&
      Potential(|items|, nodes', queue[1..] + Targets(es)) ==
        Potential(|items|, nodes, queue[1..]) + |es| * Pot(|items| - (nodes[queue[0]].index + 1))
  {
    var c, n := queue[0], |items|;
    var nodes', es := ExpandAt(items, capacity, nodes, c), NewEdges(items, capacity, nodes, c);
    var added := Targets(es);
    ExpandShape(items, capacity, nodes, c);
    ExpandGrows(items, capacity, nodes, c);
    assert Queued(nodes, queue[1..]);
    PotentialFrame(n, nodes, nodes', queue[1..]);
    assert Queued(nodes', added);
    PotentialConcat(n, nodes', queue[1..], added);
    var i := nodes[c].index;
    forall t | 0 <= t < |added| ensures nodes'[added[t]].index == i + 1 {
      assert added[t] == es[t].next;
    }
    PotentialUniform(n, nodes', added, i + 1);
  }

  /** At most two children worth c each weigh less than their parent,
      worth 2 * c + 1. */
  lemma FewChildren(rest: nat, m: nat, c: nat)
    requires m <= 2
    ensures rest + m * c < rest + (2 * c + 1)
  {
    if m == 2 {
      assert m * c == 2 * c;
    } else if m == 1 {
      assert m * c == c;
    }
  }

  /** A queue of nodes all at index i is worth one Pot(n - i) each. */
  lemma {:induction false} PotentialUniform(n: nat, nodes: seq<Node>, queue: seq<nat>, i: nat)
    requires Queued(nodes, queue) && i <= n
    requires forall t :: 0 <= t < |queue| ==> nodes[queue[t]].index == i
    ensures Potential(n, nodes, queue) == |queue| * Pot(n - i)
  {
    if |queue| > 0 {
      assert forall t :: 0 <= t < |queue[1..]| ==> queue[1..][t] == queue[t + 1];
      PotentialUniform(n, nodes, queue[1..], i);
    }
  }

  /** On a fresh graph, the popped node is the first of the frontier; it
      becomes expanded and its children join the end of the frontier. */
  lemma FrontierExpand(items: seq<Item>, capacity: int, nodes: seq<Node>, queue: seq<nat>, k: nat)
    requires Wf(items, capacity, nodes) && Frontier(items, capacity, nodes, queue, k) && |queue| > 0
    requires nodes[queue[0]].index < |items|
    ensures var nodes' := ExpandAt(items, capacity, nodes, queue[0]);
      Wf(items, capacity, nodes') &&
      Frontier(items, capacity, nodes', queue[1..] + Targets(NewEdges(items, capacity, nodes, queue[0])), k + 1)
  {
    var c := queue[0];
    var nodes', es := ExpandAt(items, capacity, nodes, c), NewEdges(items, capacity, nodes, c);
    ExpandShape(items, capacity, nodes, c);
    ExpandWf(items, capacity, nodes, c);
    var queue' := queue[1..] + Targets(es);
    forall t | 0 <= t < |queue'| ensures queue'[t] == k + 1 + t {
      if t < |queue| - 1 {
        assert queue'[t] == queue[t + 1];
      } else {
        assert queue'[t] == es[t - (|queue| - 1)].next;
      }
    }
    forall j | 0 <= j < k + 1 ensures Expanded(items, capacity, nodes', j) {
      if j < k {
        assert Expanded(items, capacity, nodes, j);
      }
    }
  }

  /** A node at index len(items) taken off the frontier is already
      expanded: it has no edges. */
  lemma FrontierSkip(items: seq<Item>, capacity: int, nodes: seq<Node>, queue: seq<nat>, k: nat)
    requires Wf(items, capacity, nodes) && Frontier(items, capacity, nodes, queue, k) && |queue| > 0
    requires nodes[queue[0]].index == |items|
    ensures Frontier(items, capacity, nodes, queue[1..], k + 1)
  {
    assert queue[0] == k;
  }

  lemma GrowsTrans(a: seq<Node>, b: seq<Node>, c: seq<Node>)
    requires Grows(a, b) && Grows(b, c)
    ensures Grows(a, c)
  {
    forall j | 0 <= j < |a| ensures a[j].edges <= c[j].edges {
      assert a[j].edges <= b[j].edges && b[j].edges <= c[j].edges;
    }
  }

  // ---------------------------------------------------------------------
  // Graph
  // ---------------------------------------------------------------------

  class Graph {
    /** self.items */
    var items: seq<Item>
    /** self.capacity */
    var capacity: int
    /** self.nodes; slot 0 is self.start */
    var nodes: seq<Node>

    ghost predicate Valid()
      reads this
    {
      Wf(items, capacity, nodes)
    }

    /** Graph(items, capacity) (mochila.py:50-54): only the start node. */
    constructor (items: seq<Item>, capacity: int)
      ensures Valid()
      ensures this.items == items && this.capacity == capacity && nodes == [Start()]
    {
      this.items, this.capacity, nodes := items, capacity, [Start()];
    }

    /** The body of build's loop for a node below len(items)
        (mochila.py:66-100): the skip child is created, appended and linked,
        then the take child if the item fits. */
    method Expand(current: nat) returns (added: seq<nat>)
      requires Valid() && current < |nodes| && nodes[current].index < |items|
      modifies this
      ensures items == old(items) && capacity == old(capacity)
      ensures nodes == ExpandAt(items, capacity, old(nodes), current)
      ensures added == Targets(NewEdges(items, capacity, old(nodes), current))
    {
      var cur := nodes[current];
      var item := items[cur.index];
      var skipNode := Child(cur, current, item, Skip);
      nodes := nodes + [skipNode];
      nodes := nodes[current := AddEdge(nodes[current], Edge(|nodes| - 1, Skip))];
      added := [|nodes| - 1];
      if cur.weight + item.weight <= capacity {
        var takeNode := Child(cur, current, item, Take);
        nodes := nodes + [takeNode];
        nodes := nodes[current := AddEdge(nodes[current], Edge(|nodes| - 1, Take))];
        added := added + [|nodes| - 1];
      }
    }

    /** build (mochila.py:56-100): breadth-first expansion from the start
        node until the queue is empty.  The arena only grows; started on a
        fresh graph, build expands every node it creates. */
    method Build()
      requires Valid()
      modifies this
      ensures Valid() && items == old(items) && capacity == old(capacity)
      ensures Grows(old(nodes), nodes)
      ensures old(nodes) == [Start()] ==> Complete(items, capacity, nodes)
    {
      var queue := [0];
      ghost var fresh0 := nodes == [Start()];
      ghost var k := 0;
      while |queue| > 0
        invariant Valid() && items == old(items) && capacity == old(capacity)
        invariant Grows(old(nodes), nodes) && Queued(nodes, queue)
        invariant fresh0 ==> Frontier(items, capacity, nodes, queue, k)
        decreases Potential(|items|, nodes, queue)
      {
        var current := queue[0];
        if nodes[current].index == |items| {
          if fresh0 {
            FrontierSkip(items, capacity, nodes, queue, k);
          }
          queue, k := queue[1..], k + 1;
          continue;
        }
        ExpandPotential(items, capacity, nodes, queue);
        if fresh0 {
          FrontierExpand(items, capacity, nodes, queue, k);
        }
        ExpandWf(items, capacity, nodes, current);
        GrowsTrans(old(nodes), nodes, ExpandAt(items, capacity, nodes, current));
        var added := Expand(current);
        queue, k := queue[1..] + added, k + 1;
      }
    }
  }

  // ---------------------------------------------------------------------
  // Plans: the (action, item) lists solve returns
  // ---------------------------------------------------------------------

  /** One entry of solve's path: the decision taken on an item. */
  type Step = (Action, Item)

  /** The summed priority of the items a plan takes. */
  function Gain(plan: seq<Step>): int {
    if |plan| == 0 then 0
    else (if plan[0].0 == Take then plan[0].1.priority else 0) + Gain(plan[1..])
  }

  /** The summed weight of the items a plan takes. */
  function Load(plan: seq<Step>): int {
    if |plan| == 0 then 0
    else (if plan[0].0 == Take then plan[0].1.weight else 0) + Load(plan[1..])
  }

  /** Starting from weight w, every take of the plan passes build's fit test
      (the weight so far plus the item's is at most the capacity). */
  predicate FitsAll(plan: seq<Step>, capacity: int, w: int) {
    |plan| == 0 ||
    ((plan[0].0 == Take ==> w + plan[0].1.weight <= capacity) &&
     FitsAll(plan[1..], capacity, w + (if plan[0].0 == Take then plan[0].1.weight else 0)))
  }

  /** The plan decides the items its, one step each, in order. */
  predicate Over(plan: seq<Step>, its: seq<Item>) {
    |plan| == |its| && forall t :: 0 <= t < |plan| ==> plan[t].1 == its[t]
  }

  lemma {:induction false} GainConcat(a: seq<Step>, b: seq<Step>)
    ensures Gain(a + b) == Gain(a) + Gain(b)
    ensures Load(a + b) == Load(a) + Load(b)
  {
    if |a| == 0 {
      assert a + b == b;
    } else {
      assert (a + b)[0] == a[0] && (a + b)[1..] == a[1..] + b;
      GainConcat(a[1..], b);
    }
  }

  lemma {:induction false} FitsConcat(a: seq<Step>, b: seq<Step>, capacity: int, w: int)
    ensures FitsAll(a + b, capacity, w) <==> FitsAll(a, capacity, w) && FitsAll(b, capacity, w + Load(a))
  {
    if |a| == 0 {
      assert a + b == b;
    } else {
      assert (a + b)[0] == a[0] && (a + b)[1..] == a[1..] + b;
      FitsConcat(a[1..], b, capacity, w + (if a[0].0 == Take then a[0].1.weight else 0));
    }
  }

  /** The best gain of any plan over its starting from weight w: the
      reference definition of an optimal knapsack under build's fit test. */
  function Opt(its: seq<Item>, capacity: int, w: int): int {
    if |its| == 0 then 0
    else
      var skip := Opt(its[1..], capacity, w);
      if w + its[0].weight <= capacity then
        var take := its[0].priority + Opt(its[1..], capacity, w + its[0].weight);
        if take > skip then take else skip
      else skip
  }

  /** A plan that attains Opt. */
  function BestPlan(its: seq<Item>, capacity: int, w: int): (r: seq<Step>)
    ensures Over(r, its) && FitsAll(r, capacity, w) && Gain(r) == Opt(its, capacity, w)
  {
    if |its| == 0 then []
    else
      var take := its[0].priority + Opt(its[1..], capacity, w + its[0].weight);
      if w + its[0].weight <= capacity && take > Opt(its[1..], capacity, w) then
        [(Take, its[0])] + BestPlan(its[1..], capacity, w + its[0].weight)
      else
        [(Skip, its[0])] + BestPlan(its[1..], capacity, w)
  }

  /** No plan that passes the fit tests gains more than Opt. */
  lemma {:induction false} OptBound(its: seq<Item>, capacity: int, w: int, plan: seq<Step>)
    requires Over(plan, its) && FitsAll(plan, capacity, w)
    ensures Gain(plan) <= Opt(its, capacity, w)
  {
    if |its| > 0 {
      assert Over(plan[1..], its[1..]);
      OptBound(its[1..], capacity, w + (if plan[0].0 == Take then plan[0].1.weight else 0), plan[1..]);
    }
  }

  /** Skipping everything gains 0, so the optimum is never negative. */
  lemma {:induction false} OptNonNegative(its: seq<Item>, capacity: int, w: int)
    ensures Opt(its, capacity, w) >= 0
  {
    if |its| > 0 {
      OptNonNegative(its[1..], capacity, w);
    }
  }

  // ---------------------------------------------------------------------
  // Reading a plan back from the arena
  // ---------------------------------------------------------------------

  /** The path solve reads back from node j along the parent links: one
      (node.action, items[node.parent.index]) pair per link, start first. */
  function PathTo(items: seq<Item>, capacity: int, nodes: seq<Node>, j: nat): seq<Step>
    requires Wf(items, capacity, nodes) && j < |nodes|
    decreases j
  {
    assert LinkOk(items, capacity, nodes, j);
    if nodes[j].parent.None? then []
    else
      var p := nodes[j].parent.value;
      PathTo(items, capacity, nodes, p) + [(nodes[j].action.value, items[nodes[p].index])]
  }

  /** The path to any node decides the first index items in order, passes
      every fit test, and totals the node's weight and priority. */
  lemma {:induction false} PathFacts(items: seq<Item>, capacity: int, nodes: seq<Node>, j: nat)
    requires Wf(items, capacity, nodes) && j < |nodes|
    ensures var path := PathTo(items, capacity, nodes, j);
      Over(path, items[..nodes[j].index]) && FitsAll(path, capacity, 0) &&
      Gain(path) == nodes[j].priority && Load(path) == nodes[j].weight
    decreases j
  {
    assert LinkOk(items, capacity, nodes, j);
    if nodes[j].parent.Some? {
      var p := nodes[j].parent.value;
      var step: Step := (nodes[j].action.value, items[nodes[p].index]);
      PathFacts(items, capacity, nodes, p);
      var prefix := PathTo(items, capacity, nodes, p);
      GainConcat(prefix, [step]);
      FitsConcat(prefix, [step], capacity, 0);
      assert Over(prefix + [step], items[..nodes[j].index]) by {
        assert forall t :: 0 <= t < |prefix| ==> (prefix + [step])[t] == prefix[t];
      }
    }
  }

  /** With a non-negative capacity no node of the arena is over it: skip
      keeps the parent's weight, and take happens only when the item fits. */
  lemma {:induction false} WeightsWithin(items: seq<Item>, capacity: int, nodes: seq<Node>, j: nat)
    requires Wf(items, capacity, nodes) && j < |nodes| && capacity >= 0
    ensures nodes[j].weight <= capacity
    decreases j
  {
    assert LinkOk(items, capacity, nodes, j);
    if j > 0 {
      WeightsWithin(items, capacity, nodes, nodes[j].parent.value);
    }
  }

  /** A node at index len(items): a state solve compares. */
  ghost predicate Terminal(items: seq<Item>, nodes: seq<Node>, j: nat)
    requires j < |nodes|
  {
    nodes[j].index == |items|
  }

  /** The child that edge decision a leads to from node j is in the arena
      with the state the decision gives. */
  lemma FollowEdge(items: seq<Item>, capacity: int, nodes: seq<Node>, j: nat, e: Edge)
    requires Wf(items, capacity, nodes) && j < |nodes| && e in nodes[j].edges
    ensures e.next < |nodes| && nodes[e.next].index == nodes[j].index + 1
    ensures nodes[j].index < |items|
    ensures e.decision == Skip ==> nodes[e.next].weight == nodes[j].weight && nodes[e.next].priority == nodes[j].priority
    ensures e.decision == Take ==> nodes[e.next].weight == nodes[j].weight + items[nodes[j].index].weight
    ensures e.decision == Take ==> nodes[e.next].priority == nodes[j].priority + items[nodes[j].index].priority
  {
    assert EdgesOk(nodes, j);
    assert LinkOk(items, capacity, nodes, e.next);
  }

  /** In a completely built arena every plan that passes the fit tests from
      node j ends at a terminal node with j's priority plus the plan's gain. */
  lemma {:induction false} Reach(items: seq<Item>, capacity: int, nodes: seq<Node>, j: nat, plan: seq<Step>)
    requires Wf(items, capacity, nodes) && Complete(items, capacity, nodes) && j < |nodes|
    requires Over(plan, items[nodes[j].index..]) && FitsAll(plan, capacity, nodes[j].weight)
    ensures exists t :: 0 <= t < |nodes| && Terminal(items, nodes, t) && nodes[t].priority == nodes[j].priority + Gain(plan)
    decreases |plan|
  {
    var k := nodes[j].index;
    if |plan| == 0 {
      assert Terminal(items, nodes, j);
    } else {
      assert Expanded(items, capacity, nodes, j);
      var es := nodes[j].edges;
      var e := if plan[0].0 == Take then es[1] else es[0];
      assert e in es;
      FollowEdge(items, capacity, nodes, j, e);
      assert EdgesOk(nodes, j);
      assert e.decision == plan[0].0;
      assert Over(plan[1..], items[k + 1..]);
      Reach(items, capacity, nodes, e.next, plan[1..]);
    }
  }

  /** On a completely built arena the terminal priorities peak at Opt. */
  lemma CompleteOptimum(items: seq<Item>, capacity: int, nodes: seq<Node>)
    requires Wf(items, capacity, nodes) && Complete(items, capacity, nodes)
    ensures forall t :: 0 <= t < |nodes| && Terminal(items, nodes, t) ==> nodes[t].priority <= Opt(items, capacity, 0)
    ensures exists t :: 0 <= t < |nodes| && Terminal(items, nodes, t) && nodes[t].priority == Opt(items, capacity, 0)
  {
    forall t | 0 <= t < |nodes| && Terminal(items, nodes, t) ensures nodes[t].priority <= Opt(items, capacity, 0) {
      PathFacts(items, capacity, nodes, t);
      assert items[..|items|] == items;
      OptBound(items, capacity, 0, PathTo(items, capacity, nodes, t));
    }
    assert LinkOk(items, capacity, nodes, 0);
    assert items[0..] == items;
    Reach(items, capacity, nodes, 0, BestPlan(items, capacity, 0));
  }

  // ---------------------------------------------------------------------
  // The depth-first search of solve
  // ---------------------------------------------------------------------

  /** Every edge leads forward in the arena. */
  ghost predicate Forward(nodes: seq<Node>) {
    forall j, e :: 0 <= j < |nodes| && e in nodes[j].edges ==> j < e.next < |nodes|
  }

  lemma WfForward(items: seq<Item>, capacity: int, nodes: seq<Node>)
    requires Wf(items, capacity, nodes)
    ensures Forward(nodes)
  {
    forall j, e | 0 <= j < |nodes| && e in nodes[j].edges ensures j < e.next < |nodes| {
      assert EdgesOk(nodes, j);
    }
  }

  /** The number of pops the search makes below node j, j included. */
  ghost function Size(nodes: seq<Node>, j: nat): nat
    requires Forward(nodes) && j < |nodes|
    decreases |nodes| - j, 1
  {
    1 + SizeList(nodes, j, nodes[j].edges)
  }

  /** The pops below the targets of the edges es of node j. */
  ghost function SizeList(nodes: seq<Node>, j: nat, es: seq<Edge>): nat
    requires Forward(nodes) && j < |nodes| && forall e :: e in es ==> j < e.next < |nodes|
    decreases |nodes| - j, 0, |es|
  {
    if |es| == 0 then 0
    else
      assert es[|es| - 1] in es;
      SizeList(nodes, j, es[..|es| - 1]) + Size(nodes, es[|es| - 1].next)
  }

  /** The pops the search still makes for the whole stack. */
  ghost function SumSizes(nodes: seq<Node>, stack: seq<nat>): nat
    requires Forward(nodes) && Queued(nodes, stack)
  {
    if |stack| == 0 then 0
    else SumSizes(nodes, stack[..|stack| - 1]) + Size(nodes, stack[|stack| - 1])
  }

  /** Node k has been popped, waits on the stack, or lies below a node not
      yet popped. */
  ghost predicate Covered(nodes: seq<Node>, order: seq<nat>, stack: seq<nat>, k: nat)
    requires k < |nodes|
  {
    k in order || k in stack || (k > 0 && nodes[k].parent.Some? && nodes[k].parent.value !in order)
  }

  lemma TargetsHas(es: seq<Edge>, e: Edge)
    requires e in es
    ensures e.next in Targets(es)
  {
    var i :| 0 <= i < |es| && es[i] == e;
    assert Targets(es)[i] == e.next;
  }

  /** Popping current and pushing the targets of its edges keeps every node
      covered once current is popped. */
  lemma CoverStep(items: seq<Item>, capacity: int, nodes: seq<Node>, order: seq<nat>, stack: seq<nat>, k: nat)
    requires Wf(items, capacity, nodes) && |stack| > 0 && stack[|stack| - 1] < |nodes| && k < |nodes|
    requires Covered(nodes, order, stack, k)
    ensures var current := stack[|stack| - 1];
      Covered(nodes, order + [current], stack[..|stack| - 1] + Targets(nodes[current].edges), k)
  {
    var current := stack[|stack| - 1];
    var rest := stack[..|stack| - 1];
    assert stack == rest + [current];
    if k in stack && k != current {
      assert k in rest;
    } else if k !in order && k !in stack && nodes[k].parent.value == current {
      assert LinkOk(items, capacity, nodes, k);
      TargetsHas(nodes[current].edges, Edge(k, nodes[k].action.value));
    }
  }

  /** With the stack empty, the covering forces every node to be popped:
      its parent, which comes first, is. */
  lemma {:induction false} AllPopped(items: seq<Item>, capacity: int, nodes: seq<Node>, order: seq<nat>, k: nat)
    requires Wf(items, capacity, nodes) && k < |nodes|
    requires forall j :: 0 <= j < |nodes| ==> Covered(nodes, order, [], j)
    ensures k in order
    decreases k
  {
    assert Covered(nodes, order, [], k);
    if k !in order {
      assert LinkOk(items, capacity, nodes, k);
      AllPopped(items, capacity, nodes, order, nodes[k].parent.value);
    }
  }

  lemma SnocAssoc<T>(a: seq<T>, b: seq<T>, x: T)
    ensures (a + b) + [x] == a + (b + [x])
  {
  }

  lemma ConsAssoc<T>(a: seq<T>, x: T, b: seq<T>)
    ensures (a + [x]) + b == a + ([x] + b)
  {
  }

  /** One push of solve's for loop adds the pops below its target. */
  lemma PushEdge(nodes: seq<Node>, stack: seq<nat>, j: nat, es: seq<Edge>, i: nat)
    requires Forward(nodes) && Queued(nodes, stack) && j < |nodes| && i < |es|
    requires forall e :: e in es ==> j < e.next < |nodes|
    ensures Queued(nodes, stack + [es[i].next])
    ensures SumSizes(nodes, stack + [es[i].next]) == SumSizes(nodes, stack) + Size(nodes, es[i].next)
    ensures SizeList(nodes, j, es[..i + 1]) == SizeList(nodes, j, es[..i]) + Size(nodes, es[i].next)
    ensures Targets(es[..i + 1]) == Targets(es[..i]) + [es[i].next]
  {
    PushStack(nodes, stack, j, es[i].next);
    PushList(nodes, j, es, i);
  }

  /** Pushing a later node n keeps the stack queued and adds its size. */
  lemma PushStack(nodes: seq<Node>, stack: seq<nat>, j: nat, n: nat)
    requires Forward(nodes) && Queued(nodes, stack) && j < n < |nodes|
    ensures Queued(nodes, stack + [n])
    ensures SumSizes(nodes, stack + [n]) == SumSizes(nodes, stack) + Size(nodes, n)
  {
    assert (stack + [n])[..|stack|] == stack;
  }

  /** The first i + 1 edges: their sizes and targets extend those of the
      first i by edge i. */
  lemma PushList(nodes: seq<Node>, j: nat, es: seq<Edge>, i: nat)
    requires Forward(nodes) && j < |nodes| && i < |es|
    requires forall e :: e in es ==> j < e.next < |nodes|
    ensures SizeList(nodes, j, es[..i + 1]) == SizeList(nodes, j, es[..i]) + Size(nodes, es[i].next)
    ensures Targets(es[..i + 1]) == Targets(es[..i]) + [es[i].next]
  {
    assert es[i] in es;
    assert es[..i + 1][..i] == es[..i];
  }

  /** Pushing the targets of the first i edges of node j adds the pops below
      them. */
  lemma {:induction false} PushPrefix(nodes: seq<Node>, rest: seq<nat>, j: nat, i: nat)
    requires Forward(nodes) && Queued(nodes, rest) && j < |nodes| && i <= |nodes[j].edges|
    ensures Queued(nodes, rest + Targets(nodes[j].edges[..i]))
    ensures SumSizes(nodes, rest + Targets(nodes[j].edges[..i])) == SumSizes(nodes, rest) + SizeList(nodes, j, nodes[j].edges[..i])
  {
    var es := nodes[j].edges;
    if i == 0 {
      assert rest + Targets(es[..0]) == rest;
    } else {
      PushPrefix(nodes, rest, j, i - 1);
      PushEdge(nodes, rest + Targets(es[..i - 1]), j, es, i - 1);
      SnocAssoc(rest, Targets(es[..i - 1]), es[i - 1].next);
    }
  }

  /** Popping node c off the top of the stack and pushing the targets of
      its edges is one pop fewer. */
  lemma PopPush(nodes: seq<Node>, stack: seq<nat>)
    requires Forward(nodes) && Queued(nodes, stack) && |stack| > 0
    ensures var c := stack[|stack| - 1];
      var next := stack[..|stack| - 1] + Targets(nodes[c].edges);
      Queued(nodes, next) && SumSizes(nodes, next) < SumSizes(nodes, stack)
  {
    var c := stack[|stack| - 1];
    PushPrefix(nodes, stack[..|stack| - 1], c, |nodes[c].edges|);
    assert nodes[c].edges[..|nodes[c].edges|] == nodes[c].edges;
  }

  /** The order in which solve's loop pops slots, starting from stack: the
      last slot first, then what its edges push.  The reference that the
      search is proved against. */
  ghost function PopOrder(nodes: seq<Node>, stack: seq<nat>): (r: seq<nat>)
    requires Forward(nodes) && Queued(nodes, stack)
    ensures Queued(nodes, r)
    decreases SumSizes(nodes, stack)
  {
    if |stack| == 0 then []
    else
      PopPush(nodes, stack);
      var c := stack[|stack| - 1];
      [c] + PopOrder(nodes, stack[..|stack| - 1] + Targets(nodes[c].edges))
  }

  /** What solve's best_node and best_priority record after popping order:
      nothing and -1 while no terminal node above -1 came off, otherwise the
      first popped terminal node of the highest priority so far. */
  ghost predicate Leader(items: seq<Item>, nodes: seq<Node>, order: seq<nat>, best: Option<nat>, bestPriority: int, pos: nat)
    requires Queued(nodes, order)
  {
    (best.None? ==> bestPriority == -1) &&
    (best.Some? ==> pos < |order| && order[pos] == best.value && Terminal(items, nodes, best.value) &&
                    nodes[best.value].priority == bestPriority > -1) &&
    (best.Some? ==> forall i :: 0 <= i < pos && Terminal(items, nodes, order[i]) ==> nodes[order[i]].priority < bestPriority) &&
    (forall i :: 0 <= i < |order| && Terminal(items, nodes, order[i]) ==> nodes[order[i]].priority <= bestPriority)
  }

  /** Popping c: a terminal node above the best takes the lead, anything
      else leaves it. */
  lemma LeaderStep(items: seq<Item>, nodes: seq<Node>, order: seq<nat>, best: Option<nat>, bestPriority: int, pos: nat, c: nat)
    requires Queued(nodes, order) && c < |nodes| && Leader(items, nodes, order, best, bestPriority, pos)
    ensures Queued(nodes, order + [c])
    ensures Terminal(items, nodes, c) && nodes[c].priority > bestPriority ==>
      Leader(items, nodes, order + [c], Some(c), nodes[c].priority, |order|)
    ensures !(Terminal(items, nodes, c) && nodes[c].priority > bestPriority) ==>
      Leader(items, nodes, order + [c], best, bestPriority, pos)
  {
    assert forall i :: 0 <= i < |order| ==> (order + [c])[i] == order[i];
  }

  /** The search loop of solve (mochila.py:117-131): pop the last slot of
      the stack, keep it when it is terminal with a priority above the best
      so far, push the targets of its edges.  The slots come off in
      PopOrder, every node among them, so best is the first popped terminal
      node of the highest priority, when that priority is above -1. */
  method SearchBest(items: seq<Item>, capacity: int, nodes: seq<Node>)
    returns (best: Option<nat>, bestPriority: int, ghost order: seq<nat>, ghost pos: nat)
    requires Wf(items, capacity, nodes)
    ensures Forward(nodes) && order == PopOrder(nodes, [0])
    ensures forall k :: 0 <= k < |nodes| ==> k in order
    ensures best.None? <==> forall j :: 0 <= j < |nodes| && Terminal(items, nodes, j) ==> nodes[j].priority <= -1
    ensures best.None? ==> bestPriority == -1
    ensures best.Some? ==> pos < |order| && order[pos] == best.value
    ensures best.Some? ==> Terminal(items, nodes, best.value) && nodes[best.value].priority == bestPriority
    ensures best.Some? ==> forall i :: 0 <= i < pos && Terminal(items, nodes, order[i]) ==> nodes[order[i]].priority < bestPriority
    ensures forall j :: 0 <= j < |nodes| && Terminal(items, nodes, j) ==> nodes[j].priority <= bestPriority
  {
    WfForward(items, capacity, nodes);
    best, bestPriority, pos := None, -1, 0;
    var stack: seq<nat> := [0];
    order := [];
    forall k | 0 <= k < |nodes| ensures Covered(nodes, order, stack, k) {
      assert LinkOk(items, capacity, nodes, k);
    }
    while |stack| > 0
      invariant Queued(nodes, stack) && Queued(nodes, order)
      invariant order + PopOrder(nodes, stack) == PopOrder(nodes, [0])
      invariant forall k :: 0 <= k < |nodes| ==> Covered(nodes, order, stack, k)
      invariant Leader(items, nodes, order, best, bestPriority, pos)
      decreases SumSizes(nodes, stack)
    {
      ghost var stack0 := stack;
      var current := stack[|stack| - 1];
      stack := stack[..|stack| - 1];
      LeaderStep(items, nodes, order, best, bestPriority, pos, current);
      if nodes[current].index == |items| {
        if nodes[current].priority > bestPriority {
          bestPriority := nodes[current].priority;
          best := Some(current);
          pos := |order|;
        }
      }
      var edges := nodes[current].edges;
      ghost var rest := stack;
      for i := 0 to |edges|
        invariant stack == rest + Targets(edges[..i])
      {
        PushEdge(nodes, rest, current, edges, i);
        SnocAssoc(rest, Targets(edges[..i]), edges[i].next);
        stack := stack + [edges[i].next];
      }
      assert edges[..|edges|] == edges;
      PopVisit(items, capacity, nodes, order, stack0);
      order := order + [current];
    }
    assert stack == [];
    SearchDone(items, capacity, nodes, order, best, bestPriority, pos);
  }

  /** When the stack is empty every node has been popped, so the leader's
      bound covers every terminal node of the arena. */
  lemma SearchDone(items: seq<Item>, capacity: int, nodes: seq<Node>, order: seq<nat>,
                   best: Option<nat>, bestPriority: int, pos: nat)
    requires Wf(items, capacity, nodes) && Queued(nodes, order)
    requires forall k :: 0 <= k < |nodes| ==> Covered(nodes, order, [], k)
    requires Leader(items, nodes, order, best, bestPriority, pos)
    ensures forall k :: 0 <= k < |nodes| ==> k in order
    ensures forall j :: 0 <= j < |nodes| && Terminal(items, nodes, j) ==> nodes[j].priority <= bestPriority
  {
    forall k | 0 <= k < |nodes| ensures k in order {
      AllPopped(items, capacity, nodes, order, k);
    }
    forall j | 0 <= j < |nodes| && Terminal(items, nodes, j) ensures nodes[j].priority <= bestPriority {
      assert j in order;
      var i :| 0 <= i < |order| && order[i] == j;
    }
  }

  /** One turn of solve's while loop as the search order sees it: the popped
      node joins the order, its children replace it on the stack, the stack
      shrinks in size and every node stays covered. */
  lemma PopVisit(items: seq<Item>, capacity: int, nodes: seq<Node>, order: seq<nat>, stack: seq<nat>)
    requires Wf(items, capacity, nodes) && Forward(nodes) && Queued(nodes, stack) && |stack| > 0
    requires order + PopOrder(nodes, stack) == PopOrder(nodes, [0])
    requires forall k :: 0 <= k < |nodes| ==> Covered(nodes, order, stack, k)
    ensures var c := stack[|stack| - 1];
      var next := stack[..|stack| - 1] + Targets(nodes[c].edges);
      Queued(nodes, next) && SumSizes(nodes, next) < SumSizes(nodes, stack) &&
      (order + [c]) + PopOrder(nodes, next) == PopOrder(nodes, [0]) &&
      forall k :: 0 <= k < |nodes| ==> Covered(nodes, order + [c], next, k)
  {
    var c := stack[|stack| - 1];
    var next := stack[..|stack| - 1] + Targets(nodes[c].edges);
    PopPush(nodes, stack);
    forall k | 0 <= k < |nodes| ensures Covered(nodes, order + [c], next, k) {
      CoverStep(items, capacity, nodes, order, stack, k);
    }
    assert PopOrder(nodes, stack) == [c] + PopOrder(nodes, next);
    ConsAssoc(order, c, PopOrder(nodes, next));
  }

  /** The reconstruction loop of solve (mochila.py:136-147): walk up the
      parent links from best collecting (action, item) pairs, then reverse
      them. */
  method ReadPath(items: seq<Item>, capacity: int, nodes: seq<Node>, best: nat) returns (path: seq<Step>)
    requires Wf(items, capacity, nodes) && best < |nodes|
    ensures path == PathTo(items, capacity, nodes, best)
  {
    var walk: seq<Step> := [];
    var node: nat := best;
    while nodes[node].parent.Some?
      invariant node < |nodes| && PathTo(items, capacity, nodes, node) + Reversed(walk) == PathTo(items, capacity, nodes, best)
      decreases node
    {
      assert LinkOk(items, capacity, nodes, node);
      var parent := nodes[node].parent.value;
      var item := items[nodes[parent].index];
      ghost var prior := walk;
      walk := walk + [(nodes[node].action.value, item)];
      assert Reversed(walk) == [(nodes[node].action.value, item)] + Reversed(prior);
      node := parent;
    }
    assert PathTo(items, capacity, nodes, node) + Reversed(walk) == Reversed(walk);
    path := Reversed(walk);
  }

  class KnapsackSolver {
    /** self.graph */
    const graph: Graph

    /** KnapsackSolver(graph) (mochila.py:108-109). */
    constructor (graph: Graph)
      ensures this.graph == graph
    {
      this.graph := graph;
    }

    /** solve (mochila.py:111-147): the path to the best terminal node and
        its priority.  With no terminal priority above -1 best_node stays
        None and node.parent raises AttributeError. */
    method Solve() returns (r: Result<(seq<Step>, int)>, ghost order: seq<nat>, ghost pos: nat)
      requires graph.Valid()
      ensures Forward(graph.nodes) && order == PopOrder(graph.nodes, [0])
      ensures r.Err? <==> forall j :: 0 <= j < |graph.nodes| && Terminal(graph.items, graph.nodes, j) ==> graph.nodes[j].priority <= -1
      ensures r.Err? ==> r.error == AttributeError
      ensures r.Ok? ==> pos < |order| && Terminal(graph.items, graph.nodes, order[pos])
      ensures r.Ok? ==> r.value == (PathTo(graph.items, graph.capacity, graph.nodes, order[pos]), graph.nodes[order[pos]].priority)
      ensures r.Ok? ==> forall i :: 0 <= i < pos && Terminal(graph.items, graph.nodes, order[i]) ==> graph.nodes[order[i]].priority < r.value.1
      ensures r.Ok? ==> forall j :: 0 <= j < |graph.nodes| && Terminal(graph.items, graph.nodes, j) ==> graph.nodes[j].priority <= r.value.1
    {
      var best, bestPriority;
      best, bestPriority, order, pos := SearchBest(graph.items, graph.capacity, graph.nodes);
      if best.None? {
        return Err(AttributeError), order, pos;
      }
      var path := ReadPath(graph.items, graph.capacity, graph.nodes, best.value);
      r := Ok((path, bestPriority));
    }
  }

  /** The driver of mochila.py (lines 162-170) on any items and capacity:
      Graph(items, capacity), build, then KnapsackSolver(graph).solve().
      The search never fails on a freshly built graph, and the path it
      returns decides every item in order, passes every fit test and gains
      Opt, which no such plan beats (OptBound). */
  method BuildAndSolve(items: seq<Item>, capacity: int) returns (r: Result<(seq<Step>, int)>)
    ensures r.Ok? && Over(r.value.0, items) && FitsAll(r.value.0, capacity, 0)
    ensures Gain(r.value.0) == r.value.1 == Opt(items, capacity, 0)
  {
    var graph := new Graph(items, capacity);
    graph.Build();
    var solver := new KnapsackSolver(graph);
    ghost var order, pos;
    r, order, pos := solver.Solve();
    CompleteOptimum(items, capacity, graph.nodes);
    OptNonNegative(items, capacity, 0);
    ghost var t :| 0 <= t < |graph.nodes| && Terminal(items, graph.nodes, t) && graph.nodes[t].priority == Opt(items, capacity, 0);
    assert r.Ok?;
    PathFacts(items, capacity, graph.nodes, order[pos]);
    assert items[..|items|] == items;
  }

  /** The summed positive priorities of its. */
  function Ceiling(its: seq<Item>): int {
    if |its| == 0 then 0
    else (if its[0].priority > 0 then its[0].priority else 0) + Ceiling(its[1..])
  }

  /** No plan gains more than taking exactly the items of positive priority. */
  lemma {:induction false} OptCeiling(its: seq<Item>, capacity: int, w: int)
    ensures Opt(its, capacity, w) <= Ceiling(its)
  {
    if |its| > 0 {
      OptCeiling(its[1..], capacity, w);
      OptCeiling(its[1..], capacity, w + its[0].weight);
    }
  }
}
