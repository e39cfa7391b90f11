# Three classic algorithms, verified

This project models three small Python programs and proves in Dafny what they compute.

- **Dijkstra** (`djiktra.py`). A directed weighted graph of named vertices. `dijkstra` relaxes edges out of a lazy-deletion priority queue and updates each vertex's `distance` and `previous` in place. `reconstruct_path` walks the `previous` links back from a target.
- **Huffman coding** (`huffman.py`). `HuffmanTree.build` merges the two lightest trees of a heap until one is left. `generate_codes` gives every leaf the string of left (`0`) and right (`1`) turns that leads to it.
- **0/1 knapsack by decision tree** (`mochila.py`). `mochila2.py`, `mochila3.py` and `mochila4.py` carry the same `Graph` and `KnapsackSolver` code, so the one model covers them: build at lines 55-96 of each copy, solve at `mochila2.py:107-140`, `mochila3.py:107-140` and `mochila4.py:107-135`, and the same sample at `mochila2.py:194-208`, `mochila3.py:231-245` and `mochila4.py:251-265`. The table cites `mochila.py`.
  - `Graph.build` grows the tree of take/skip decisions breadth-first. It creates a take child only when the item still fits.
  - `KnapsackSolver.solve` searches the tree depth-first for the terminal node of highest priority. It then reads the decisions back along the `parent` links.

## How the model is built

Objects that refer to each other live in an *arena*: a sequence indexed by slot. A reference is a slot number. Objects whose fields the programs update are Dafny classes. A method's contract gives its new state outright or as a specification function of the old state. For example, a turn of dijkstra's loop is given by `RelaxAll`, the edge loop as a function of the labels and the heap. The two top-level contracts that are weaker than that are listed under "Left out".

- **`ShortestPaths.Graph`** keeps one column per `Vertex` field: `names`, `adj` (outgoing edges), `dist` and `prev`. It also keeps the name → slot dictionary `vertices`.
- **`Dijkstra.Dijkstra`** changes `dist` and `prev` through that object.
  - The heap is a multiset of `(distance, slot)` entries, and any entry of least distance may come out.
  - The source never resets distances, so the contract has two parts. One holds after any run. The other holds for a run on a graph nobody ran it on before: the result is a shortest-path tree (`ShortestPathTree`).
  - `Dijkstra.DijkstraFresh` resets distances and links before the run. It is the corrected second run of the finding below and is not part of the source.
- **`Huffman.HuffmanTree`** keeps `freqTable`, `root` and `codes` as fields.
  - Trees are a datatype. The priority queue is a sequence, and a pop takes its first tree of least frequency.
  - `Build` is specified by the function `MergeAll`. The lemmas about `MergeAll` carry the properties.
- **`Knapsack.Graph`** keeps `items`, `capacity` and the node arena.
  - `Build` expands the breadth-first queue in place. Started on a fresh graph, it leaves every node expanded (`Complete`).
  - `KnapsackSolver.Solve` runs a stack search. The search loop and the walk up the parent links are the methods `SearchBest` and `ReadPath`.
  - What the search finds is compared with `Opt`, an independent recursive definition of the best plan. `BuildAndSolve` shows that the driver of the script always returns an optimal plan.

The sample run at the end of each script is proved as a method with a concrete result:
- `SampleGraph.Sample` gives distances A 0, B 4, C 2, D 9, E 11, F 14 and the path A B D E F;
- `HuffmanSample.Sample` gives A 1100, B 1101, C 100, D 101, E 111, F 0;
- `KnapsackSample.Sample` gives total priority 250: take the saber, the holoprojector, the blaster and the tools, skip the drone.

## Model

| member | source | states |
|---|---|---|
| ShortestPaths.Graph.constructor | djiktra.py:38-39 | a new graph has no vertices |
| ShortestPaths.Graph.AddVertex | djiktra.py:41-44 | appends a fresh vertex (distance inf, previous None, no edges) and points the name at it; an existing name is re-pointed and its old vertex stays where edges reach it |
| ShortestPaths.Graph.AppendEdge | djiktra.py:12-13 | Vertex.add_edge appends Edge(self, to, weight) to that vertex's list and changes nothing else |
| ShortestPaths.Graph.AddEdge | djiktra.py:46-47 | KeyError for an unknown source, then for an unknown destination, with nothing changed; otherwise the edge is appended to the source's list |
| ShortestPaths.Graph.GetVertex | djiktra.py:49-50 | returns a vertex exactly when the name is registered: the one the dict holds now, which carries the name; otherwise KeyError(name) |
| ShortestPaths.WalkSnoc | djiktra.py:72-79 | extending a walk by an edge out of its end gives a walk whose weight grows by the edge's weight |
| ShortestPaths.WalkBound | djiktra.py:72-79 | when no edge can be relaxed, a label is at most the source's label plus the weight of any walk to it |
| ShortestPaths.ChainUnique | djiktra.py:86-94 | only one chain of previous links ends at a given vertex |
| ShortestPaths.ChainSuffix | djiktra.py:86-94 | two chains ending at the same vertex coincide, since a chain starts where previous is None |
| ShortestPaths.ReachedIffReachable | djiktra.py:59-79 | in a shortest-path tree a vertex has a finite distance if and only if a walk from the source reaches it |
| ShortestPaths.ChainFromSource | djiktra.py:86-94 | in a shortest-path tree, the chain to a reached vertex starts at the source and every link is a tight edge |
| Dijkstra.Dijkstra | djiktra.py:59-79 | KeyError for an unknown start with nothing changed; otherwise start gets distance 0 and keeps its previous link; no distance grows, and a previous link changes only where the distance dropped; every other vertex whose distance changed hangs off its previous vertex through an edge that fits the new distances; a re-run on a state relaxed everywhere with start at 0 changes nothing; from a state relaxed everywhere but start, the result is relaxed everywhere; from an untouched graph, the result is a shortest-path tree rooted at start |
| Dijkstra.Step | djiktra.py:66-79 | one turn pops an entry of least distance; a stale entry (distance above its vertex's) only leaves the heap; otherwise distances, links and heap become RelaxAll of the vertex's edges and the vertex is relaxed; a turn on a state relaxed everywhere changes no distance or link; the run invariant holds and the termination measure (unreached vertices, sum of distances, heap size) drops |
| Dijkstra.RelaxEdges | djiktra.py:72-79 | the edge loop of a current entry leaves distances, links and heap equal to RelaxAll of u's edges from the old state; every edge out of u is relaxed and u's own distance is unchanged |
| Dijkstra.RelaxEdge | djiktra.py:73-79 | the new distances, links and heap are RelaxOne of the old ones: when new_dist < v.distance, v takes new_dist, previous u, and (new_dist, v) is pushed; otherwise nothing changes; either way v.distance <= u.distance + weight afterwards and no distance grew |
| Dijkstra.LowerKeeps | djiktra.py:76-79 | one improvement keeps the whole run invariant |
| Dijkstra.RelinkStep | djiktra.py:76-78 | improving v through u links v to u by an edge that fits, and keeps every other changed vertex linked |
| Dijkstra.PopInv | djiktra.py:67-70 | a pop keeps every heap entry valid and the run invariant, with the popped vertex excused until its edges are relaxed, or not excused at all when the entry is stale |
| Dijkstra.RelaxAllFacts | djiktra.py:72-79 | after the edge loop no distance grew; a vertex whose distance changed has u as previous and du plus the weight of one of u's edges into it as distance; a link changed only with its distance; the heap only gained entries (du + weight, dest) for u's edges |
| Dijkstra.RelaxAllFrame | djiktra.py:72-79 | a vertex no edge of u enters keeps its distance and its previous link |
| Dijkstra.RelaxAllProgress | djiktra.py:72-79 | the edge loop changes nothing or lowers the distances in the termination measure |
| Dijkstra.RelaxAllIdle | djiktra.py:72-79 | when every edge of u is already relaxed, the edge loop changes nothing, not even the heap |
| Dijkstra.RelaxationStep | djiktra.py:73-79 | one more edge extends those facts from the first edges to the first edges and this one |
| Dijkstra.RelaxAllSnoc | djiktra.py:72 | the loop over the first i + 1 edges is the loop over the first i edges and then edge i |
| Dijkstra.EdgesDone | djiktra.py:72-79 | after the last edge of u, u is relaxed, the run invariant holds with no vertex excused, and the state stayed or dropped in the measure |
| Dijkstra.Pop | djiktra.py:67-70 | popping a least entry keeps every entry valid, and a stale entry (distance above the vertex's) leaves every vertex pending or relaxed, as if skipped |
| Dijkstra.MinEntry | djiktra.py:67 | a non-empty heap has an entry of least distance |
| Dijkstra.Start | djiktra.py:60-64 | setting start to 0 and pushing (0, start) establishes the run invariant; an untouched graph is relaxed everywhere but start |
| Dijkstra.Drained | djiktra.py:66 | when the heap is empty, every edge out of a reached vertex is relaxed |
| Dijkstra.LowerOne | djiktra.py:76-77 | lowering one distance moves the state down the termination measure |
| Dijkstra.FreshStep | djiktra.py:76-78 | on an untouched graph, each improvement keeps every label the weight of a walk from start and every previous link a recorded edge |
| Dijkstra.FreshFinish | djiktra.py:59-79 | at the end of a run on an untouched graph, the distances and previous links form a shortest-path tree |
| Dijkstra.Ranks | djiktra.py:78 | the previous links set by a run have no cycle (a rank grows along every link) |
| Dijkstra.NoWorseStep | djiktra.py:76-78 | an improvement keeps "no distance grew, links changed only where distances dropped" |
| Dijkstra.QueueStep | djiktra.py:77-79 | pushing (new_dist, v) after lowering v keeps every heap entry no better than its vertex's distance |
| Dijkstra.SettleStep | djiktra.py:76-79 | lowering v and pushing its entry keeps every other reached vertex pending in the heap or relaxed |
| Dijkstra.AllEdgesRelaxed | djiktra.py:72-79 | once every edge of u has been passed, u is relaxed |
| Dijkstra.DijkstraFresh | djiktra.py:59-79 | dijkstra with every distance reset to inf and every previous link to None first: KeyError for an unknown start with nothing changed; otherwise the result is a shortest-path tree rooted at start, whatever earlier runs left |
| Dijkstra.ReconstructPath | djiktra.py:86-94 | KeyError for an unknown end; otherwise the names of the unique chain of previous links ending at end, source first (just [end] when end has no previous link) |
| SampleGraph.BuildSample | djiktra.py:218-232 | the six add_vertex and nine add_edge calls build the sample graph |
| SampleGraph.SampleDistances | djiktra.py:234-237 | any shortest-path tree from A on the sample graph has distances 0, 4, 2, 9, 11, 14 |
| SampleGraph.SampleLinks | djiktra.py:234-237 | and its previous links are B, C from A, D from B, E from D, F from E |
| SampleGraph.RunSample | djiktra.py:234-237 | dijkstra(g, "A") on the sample graph leaves those distances and links |
| SampleGraph.Sample | djiktra.py:218-238 | the sample prints distances 0, 4, 2, 9, 11, 14 and the path A B D E F |
| StaleLinks.BuildCycle | djiktra.py:38-47 | Graph() with S, A, B and edges S -> A (10), A -> B (1), B -> A (1) |
| StaleLinks.DistancesFromS | djiktra.py:59-79 | any shortest-path tree from S on that graph has distances 0, 10, 11 |
| StaleLinks.FromS | djiktra.py:59-79 | and its previous links are A from S, B from A |
| StaleLinks.ThenFromB | djiktra.py:59-79 | a second run from B that keeps B's link to A must relink A to B at distance 1 |
| StaleLinks.CycleNoChain | djiktra.py:86-94 | with A and B each other's previous vertex the links have a cycle and no chain of links ends at A or B, so reconstruct_path to either never returns |
| StaleLinks.TwoRuns | djiktra.py:59-94 | dijkstra from S, then from B, leaves A.previous == B and B.previous == A |
| StaleLinks.NoWalkToS | djiktra.py:59-79 | no walk from A or B reaches S |
| StaleLinks.FromB | djiktra.py:59-79 | the only shortest-path tree from B leaves S unreached, A at 1 off B and B at 0 |
| StaleLinks.RunsFixed | djiktra.py:59-79 | dijkstra from S, then DijkstraFresh from B, leaves exactly that tree |
| StaleLinks.TwoRunsFixed | djiktra.py:86-94 | after that, reconstruct_path to A returns B, A |
| Huffman.HuffmanTree.constructor | huffman.py:24-27 | a new tree holds the table, no root and no codes |
| Huffman.HuffmanTree.Build | huffman.py:30-46 | an empty table raises IndexError at pq[0] and leaves root alone; otherwise root is MergeAll of the table's leaves |
| Huffman.HuffmanTree.Traverse | huffman.py:51-57 | adds exactly Codes(node, prefix) to the codes: leaves record the prefix, inner nodes pass prefix + "0" left and prefix + "1" right |
| Huffman.HuffmanTree.GenerateCodes | huffman.py:49-60 | AttributeError when root is None; otherwise the codes of the root with prefix "" are added and returned |
| Huffman.TableLeaves | huffman.py:34-35 | one leaf per table entry |
| Huffman.TableTotals | huffman.py:34-35 | the leaves carry the table's frequencies and keys, and are well merged |
| Huffman.MinIndexLeast | huffman.py:39-40 | a pop takes a tree of least frequency, and no earlier tree is as light |
| Huffman.MinIndexIs | huffman.py:39-40 | the first least tree is the one popped |
| Huffman.MergeStep | huffman.py:38-43 | one turn shrinks the heap by exactly one |
| Huffman.MergeStepGreedy | huffman.py:39-43 | a turn joins the least tree (left) with the least of the rest (right), left.freq <= right.freq, and keeps all other trees |
| Huffman.MergeStepTotals | huffman.py:42-43 | a turn keeps the heap's total frequency and its characters |
| Huffman.MergeStepShape | huffman.py:42 | a turn keeps every tree well merged (freq = sum of children, lighter left) |
| Huffman.MergeAllKeeps | huffman.py:38-46 | the single root carries the heap's total frequency and exactly its characters, and is well merged |
| Huffman.BuiltTree | huffman.py:30-46 | the built root's frequency is the sum of the table's, its leaves are exactly the table's characters, each once |
| Huffman.OneEntry | huffman.py:38-46 | a one-entry table yields that leaf as the root and the code "" |
| Huffman.CodesKeys | huffman.py:51-57 | traverse records one code per character of the tree |
| Huffman.CodesBelow | huffman.py:51-57 | every recorded code is the prefix followed by 0s and 1s |
| Huffman.UnionPrefixFree | huffman.py:56-57 | codes below the "0" and "1" branches of a node stay prefix-free together |
| Huffman.CodesPrefixFree | huffman.py:51-57 | when every character occurs once, no code is a prefix of another |
| Huffman.BuiltCodes | huffman.py:49-60 | generate_codes after build gives every table character a binary code and the codes are prefix-free |
| HuffmanSample.SampleBuild | huffman.py:163-174 | the sample table builds the tree 5+9, 12+13, 14+16, 25+30, 45+55 |
| HuffmanSample.SampleCodes | huffman.py:175 | whose codes are A 1100, B 1101, C 100, D 101, E 111, F 0 |
| HuffmanSample.Sample | huffman.py:163-175 | the sample script returns exactly those codes |
| Knapsack.Child | mochila.py:71-78 | a child has index + 1, the expanding node as parent and the decision as action; skip copies weight and priority, take adds the item's |
| Knapsack.Graph.constructor | mochila.py:49-54 | a new graph holds the items, the capacity and only the start node (0, 0, 0) |
| Knapsack.Graph.Expand | mochila.py:66-100 | expanding a node appends the skip child and its edge, then, if and only if the item fits, the take child and its edge |
| Knapsack.ExpandShape | mochila.py:71-100 | expansion adds one child per new edge, with the skip edge first, and changes no other node |
| Knapsack.ExpandWf | mochila.py:71-100 | expansion keeps every parent, action and edge consistent and only grows the arena |
| Knapsack.Graph.Build | mochila.py:56-100 | build keeps the arena consistent and only appends; on a fresh graph every node ends up expanded: no edges at len(items), otherwise skip and then take exactly when it fits |
| Knapsack.ExpandPotential | mochila.py:59-100 | each expansion lowers the potential (a full tree below each queued node), so build terminates |
| Knapsack.ExpandQueue | mochila.py:59-100 | after an expansion the queue is the rest of the old queue, worth what it was, then at most two children, each worth a full tree one level lower |
| Knapsack.FrontierExpand | mochila.py:59-82 | on a fresh graph the breadth-first queue is exactly the unexpanded tail of the arena |
| Knapsack.WeightsWithin | mochila.py:71-92 | with capacity >= 0, no node's weight exceeds the capacity |
| Knapsack.PathFacts | mochila.py:136-147 | the path to a node decides items 0..index-1 in order, passes every fit test, and totals the node's weight and priority |
| Knapsack.BestPlan | mochila.py:56-100 | some plan over the items that passes every fit test gains Opt |
| Knapsack.OptBound | mochila.py:56-100 | no plan over the items that passes every fit test gains more than Opt |
| Knapsack.OptNonNegative | mochila.py:71-82 | skipping everything is always possible, so Opt is at least 0 |
| Knapsack.Reach | mochila.py:56-100 | in a fully built arena every plan that passes the fit tests ends at a terminal node |
| Knapsack.CompleteOptimum | mochila.py:56-147 | in a fully built arena the highest terminal priority is exactly Opt |
| Knapsack.SearchBest | mochila.py:113-131 | the slots are popped in PopOrder, every node among them; best is the first popped terminal node of the highest terminal priority, or None with -1 when every terminal priority is <= -1 |
| Knapsack.PopVisit | mochila.py:113-131 | a turn of the search loop appends the popped node to the pop order, puts its children in its place on the stack, shrinks the stack's size and keeps every node covered |
| Knapsack.SearchDone | mochila.py:113-131 | once the stack is empty every node has been popped, so no terminal priority is above the best |
| Knapsack.ReadPath | mochila.py:136-146 | the walk up the parent links, reversed, is PathTo(best) |
| Knapsack.KnapsackSolver.constructor | mochila.py:108-109 | the solver holds the graph |
| Knapsack.KnapsackSolver.Solve | mochila.py:111-147 | AttributeError exactly when no terminal priority is above -1; otherwise the path to the first popped terminal node of highest priority, and that priority |
| Knapsack.BuildAndSolve | mochila.py:162-170 | Graph, build, then solve always succeeds and returns a plan over all items, in order, that passes every fit test and whose taken priorities sum to the returned total, which is the optimum Opt |
| Knapsack.OptCeiling | mochila.py:56-100 | no plan gains more than the summed positive priorities |
| KnapsackSample.OnlyBest | mochila.py:154-160 | on the Star Wars items with capacity 15, the only plan passing the fit tests with gain 250 or more takes the first four items |
| KnapsackSample.Sample | mochila.py:154-170 | the sample returns that plan and total priority 250 |

## Left out

- Printing, drawing and image export (networkx, matplotlib, `print`, `__repr__`) are not modelled; they only show results.
- Dijkstra.Dijkstra: heap ties. When two entries have the same distance, Python compares the `Vertex` objects and raises TypeError. The model lets any least entry come out instead, and the contract holds for every choice.
- Dijkstra.Dijkstra: requires non-negative edge weights. The source keeps no visited set, so with negative weights it still stops only at a fixpoint, with correct distances, unless a negative cycle is reachable from start; then it never stops. The model's termination measure (unreached vertices, then the distances) and the acyclicity argument (a rank of distance times clock plus stamp along the links) both need weights >= 0, so negative weights are not modelled.
- Dijkstra.Dijkstra: the shortest-path guarantee is stated only for a run on an untouched graph. After earlier runs the source's leftover distances and links make a weaker state. The contract then gives: no distance grew; every changed vertex hangs off its previous vertex (`Relinked`); the fixpoint when start was the only unrelaxed vertex; and nothing changes on a re-run from a state already relaxed everywhere with start at 0. The stale links this leaves are the finding below.
- Dijkstra.ReconstructPath: requires the previous links to be acyclic, or the walk never ends. One run of Dijkstra on an untouched graph guarantees this. Two runs from different starts can leave a cycle (see Findings), and then reconstruct_path is not modelled.
- Huffman.HuffmanTree.Build: frequency ties. When two trees have equal frequency, heapq compares `HuffmanNode` objects and raises TypeError. The model pops the first tree of least frequency, so the result on tables with ties is one Python never produces. The sample table has no ties.
- The frequency table is a `seq` of (character, frequency) pairs in the dict's insertion order, with distinct keys. `HuffmanNode.is_leaf` is the datatype test `Leaf?`, because build only creates nodes with both children or none.
- Knapsack.KnapsackSolver.Solve: the search order is specified by `PopOrder`, a reference unfolding of the stack. The model does not say which node of equal priority wins beyond "the first in that order".
- Knapsack.Graph.Build: the strong postcondition (every node expanded) is stated only for a fresh graph. A second call of build expands nodes again and duplicates edges, and then the contract gives only consistency and growth.
- Item names are kept as strings and play no part in the computation.

## Findings

| source | as written | input that shows it | evidently intended | confidence | as-written member | corrected member |
|---|---|---|---|---|---|---|
| djiktra.py:59-79 | dijkstra never resets `distance` or `previous`, so a second run from another start keeps the first run's links wherever it lowers no distance | edges S -> A (10), A -> B (1), B -> A (1); `dijkstra(g, "S")`, then `dijkstra(g, "B")`: A.previous == B and B.previous == A, so `reconstruct_path(g, "B", "A")` never returns | reset every distance to inf and every previous link to None before the run | not executed | StaleLinks.TwoRuns | Dijkstra.DijkstraFresh (with StaleLinks.TwoRunsFixed: the path B, A) |
