# Actor and director graphs: store, builders and analyses

This project models the core of a small graph-analysis program written in
Python. The program builds two weighted graphs from film records:

- an undirected co-actor graph, whose edge weights count shared casts;
- a directed graph from actors to the directors they worked with.

It then runs classic analyses on them: connected and strongly connected
components, Prim's spanning tree, and degree, betweenness and closeness
centrality.

- `Adjacency` (adjacency.dfy) holds the values of the store's adjacency lists. A vertex is a name and an entry is `(viz, peso)`. The module also defines the list edits that `adicionar_aresta` performs.
- `GraphStore` (graph_store.dfy) models the class `Grafo`.
  - The store's state is the value `GraphData`, with its invariant `Wf`: names are vertices, no list repeats a neighbour, undirected lists mirror each other, and `num_arestas` counts the joined pairs.
  - `AddEdgeSpec` is the new state after `adicionar_aresta`.
  - The class `Graph` holds the same four attributes as mutable fields, and its methods are proved against `AddEdgeSpec`.
- `Builders` (builders.dfy) models `construir_grafo_atores` and `construir_grafo_direcional` as the nested loops they are. It also characterises the graphs they build: vertices, neighbours and weights in terms of the input records.
- `Traversal` (traversal.dfy) and `ShortestPaths` (paths.dfy) hold the shared vocabulary:
  - iteration orders of Python sets;
  - concatenated result lists;
  - paths, reachability and shortest-path labellings.
- `Components`, `StrongComponents`, `SpanningTree`, `Degree`, `Closeness` and `Betweenness` model the analyses of algoritmos.py.
  - Each is an imperative method with loops and invariants over a `GraphData` value.
  - The iteration order of the Python set `vertices` is a parameter: any duplicate-free listing of the set.
  - A dictionary's insertion order is a sequence kept beside it.

Where the program's behaviour is surprising, the model follows the code:

- Betweenness values are halved on directed graphs too: the result is half the `Accumulated` total, which folds the search (`Searched`) and the accumulation (`Drain`) over the sources in iteration order.
- The betweenness result leaves out vertices that no other vertex reaches, because the `defaultdict` never gains them.
- `agm_prim` accepts a start vertex that has no list and returns an empty tree.
- An undirected self-loop added twice gains twice the weight, because both updates land on the same list.
- Closeness has no vertex-subset parameter; it rates every vertex.

## Model

| member | source | states |
|---|---|---|
| GraphStore.AddEdgeSpec | grafo.py:75-99 | the new state after `adicionar_aresta`: both names become vertices; an existing entry gains the weight (and its mirror too, undirected); otherwise a new entry is appended, the mirror is appended unless present, and `num_arestas` grows by one |
| GraphStore.AddEdgePreservesWf | grafo.py:75-99 | `adicionar_aresta` keeps the store invariant: names are vertices, neighbours are distinct, undirected lists mirror each other, and `num_arestas` equals the number of joined ordered (directed) or unordered (undirected) pairs |
| GraphStore.AddEdgeCount | grafo.py:93-95 | `num_arestas` grows exactly when a new pair is joined, so it keeps counting joined pairs |
| GraphStore.AddEdgeNbrs | grafo.py:81-99 | after the call, `y` is a neighbour of `x` exactly when it was before, or `(x, y)` is the new edge, or (undirected) its reverse is |
| GraphStore.AddEdgeMirrored | grafo.py:87-99 | on an undirected store, every entry between distinct vertices keeps an equal-weight mirror entry |
| GraphStore.AddEdgeClosed | grafo.py:81-99 | every key and neighbour of the lists stays a vertex |
| GraphStore.AddEdgeWeight | grafo.py:83-99 | the weight `a` records towards `b` grows by `peso` on the edge and, undirected, on its mirror; an existing undirected self-loop grows by `2 * peso` |
| GraphStore.InfoAsWritten | grafo.py:101-105 | `obter_info` as written: the vertex count, and half the number of joined unordered pairs for an undirected store |
| GraphStore.Counts | grafo.py:101-105 | the vertex count and the number of edges: joined ordered pairs (directed) or unordered pairs (undirected) |
| GraphStore.InfoHalvesOneEdge | grafo.py:104 | one undirected edge is one joined pair, which the as-written count reports as 0 |
| GraphStore.Graph.constructor | grafo.py:65-69 | a new store is empty, with the given direction, and satisfies the invariant |
| GraphStore.Graph.AddVertex | grafo.py:71-73 | adds the vertex and changes nothing else; keeps the invariant |
| GraphStore.Graph.AddEdge | grafo.py:75-99 | the new state is `AddEdgeSpec` of the old one; keeps the invariant |
| GraphStore.Graph.UpdateLists | grafo.py:83-99 | the list and counter updates give the lists and count of `AddEdgeSpec` and leave the vertex set alone |
| GraphStore.Graph.FindEntry | grafo.py:84-85 | the scan stops at the first entry for `v`, or at the end exactly when there is none |
| GraphStore.Graph.BumpMirror | grafo.py:88-90 | every entry of the list for `u` gains `peso`; the rest are unchanged |
| GraphStore.Graph.Info | grafo.py:101-105 | the vertex count and the number of edges (the corrected count, see Findings) |
| Builders.AddEdgesWf | grafo.py:121-161 | any sequence of `adicionar_aresta` calls keeps the store invariant and the direction |
| Builders.AddEdgesVertices | grafo.py:81 | the vertices after the calls are the ones before plus every name in some call |
| Builders.AddEdgesNbrs | grafo.py:75-99 | after the calls, `y` is a neighbour of `x` exactly when it was before or some call was on `(x, y)` or, undirected, on `(y, x)` |
| Builders.AddEdgesWeight | grafo.py:83-99 | the weight between two names grows by the number of calls on them (in either order when undirected) |
| Builders.ActorPairsMember | grafo.py:134-137 | the co-actor calls are exactly the pairs `(c[i], c[j])` with `i < j` of some cast |
| Builders.ActorGraphVertices | grafo.py:121-139 | an actor is a vertex of the co-actor graph exactly when some cast of at least two entries names them |
| Builders.ActorGraphWeight | grafo.py:121-139 | two distinct actors are joined exactly when they share a cast, with weight the number of index pairs naming them |
| Builders.BuildActorGraph | grafo.py:121-139 | the builder returns a fresh undirected store that satisfies the invariant and equals the co-actor graph |
| Builders.AddCast | grafo.py:135-137 | one cast adds the calls of all its index pairs `i < j`, in order |
| Builders.AddFan | grafo.py:136-137 | the innermost loop adds one call `(x, y)` for each name `y` of the list, in order; both builders use it, the actor builder with the cast after `c[i]` and the director builder with the record's directors (grafo.py:158-159) |
| Builders.DirectorPairsMember | grafo.py:156-159 | a call `(x, y)` is made exactly when actor `x` and director `y` share a record that `zip` reaches |
| Builders.DirectorGraphEdges | grafo.py:141-161 | every edge goes from an actor to a director of one of their records, every such pair is an edge, and the weight counts the calls |
| Builders.DirectorGraphVertices | grafo.py:141-161 | a name is a vertex exactly when it is an actor of a record with a director, or a director of a record with an actor |
| Builders.BuildDirectorGraph | grafo.py:141-161 | the builder returns a fresh directed store that satisfies the invariant and equals the actor-to-director graph |
| Builders.AddRecord | grafo.py:157-159 | one record adds a call for every actor and director, actor by actor |
| Components.ConnectedComponents | algoritmos.py:6-30 | the components are nonempty and partition the vertices; every member is reachable from its component's first vertex; no neighbour of a member lies in a later component |
| Components.Explore | algoritmos.py:15-26 | the search from `v` lists `v` first and exactly the vertices it newly visits, all reachable from `v`, and leaves no neighbour of theirs unvisited |
| Components.PushUnvisited | algoritmos.py:23-25 | every neighbour of the popped vertex ends up visited or on the stack, and the stack holds only reachable vertices |
| Components.AddComponent | algoritmos.py:26 | appending an explored component keeps the partition, reachability and neighbour invariants |
| Components.UndirectedComponents | algoritmos.py:6-30 | on an undirected store each component is exactly the set of vertices reachable from its first vertex |
| StrongComponents.Dfs | algoritmos.py:35-40 | the recursive search appends exactly the vertices it newly visits, `v` last, and keeps the finishing-order invariants |
| StrongComponents.VisitNbrs | algoritmos.py:37-39 | after the loop every neighbour of `v` is visited, the new vertices are exactly the ones appended, and the invariants hold |
| StrongComponents.FinishingOrder | algoritmos.py:49-56 | the first pass finishes every vertex once, and whatever a vertex reaches finished no later than some member of its strong component |
| StrongComponents.Transpose | algoritmos.py:60-63 | `transposto` lists `x` with weight `w` for `a` exactly when `a` lists `x` with weight `w` |
| StrongComponents.ReachesTransposed | algoritmos.py:60-63 | a path in the transposed graph is a path backwards in the original graph |
| StrongComponents.DfsTransposed | algoritmos.py:42-47 | the transposed search appends `v` first and exactly the vertices it newly visits, all reachable from `v` in the transpose, and leaves none of their neighbours unvisited |
| StrongComponents.ComponentIsScc | algoritmos.py:67-72 | the component collected from a popped unvisited vertex is exactly its strong component |
| StrongComponents.PopVertex | algoritmos.py:67-72 | one pop keeps the invariants: the lists partition the visited vertices, each is a strong component, and the visited set is a union of strong components |
| StrongComponents.StronglyConnectedComponents | algoritmos.py:32-75 | the lists partition the vertices, and each list is exactly the strong component of its first vertex |
| SpanningTree.PopMin | algoritmos.py:89 | the pop removes one entry of least weight and keeps the rest |
| SpanningTree.PushStart | algoritmos.py:85-86 | every entry of `inicio` is pushed, unfiltered, in list order |
| SpanningTree.StartQueue | algoritmos.py:84-86 | the pushed start entries are exactly the entries leaving `{inicio}`: the queue invariant holds before the loop |
| SpanningTree.PushEntries | algoritmos.py:94-96 | the queue grows at its end only; every entry of `v` towards an unvisited vertex is pushed, and each pushed item is such an entry |
| SpanningTree.Commit | algoritmos.py:90-93 | committing a least-weight entry to an unvisited vertex keeps the tree growing from reached vertices and each edge the lightest one leaving them, and adds its weight to the total |
| SpanningTree.PrimStep | algoritmos.py:88-96 | one pass of the loop keeps the loop invariant; either a vertex is newly visited or the queue shrinks |
| SpanningTree.Prim | algoritmos.py:79-99 | each edge joins a reached vertex to a new one along an entry and is the lightest entry leaving the vertices reached before it; the tree reaches exactly what `inicio` reaches; the cost is the total weight; a start without a list gives no edges and cost 0 |
| SpanningTree.TreeSize | algoritmos.py:79-99 | a tree grown from a vertex of a closed store has at most one edge fewer than the store has vertices |
| Degree.InDegree | algoritmos.py:113 | the generator counts the entries pointing at `v` across the lists, in iteration order |
| Degree.DegreeCentrality | algoritmos.py:102-127 | one entry per vertex: its degree for the mode and that degree divided by `n - 1` when normalising more than one vertex |
| Degree.DegreesCountNeighbours | algoritmos.py:111-121 | the in-degree is the number of predecessors and the out-degree the number of successors, each at most the number of vertices |
| Degree.UndirectedDegree | algoritmos.py:120-121 | on an undirected store the list length is both the number of predecessors and the number of successors |
| Degree.Handshake | algoritmos.py:111-119 | over all vertices the in-degrees add up to the out-degrees, whatever the iteration order |
| ShortestPaths.LayeredShortest | algoritmos.py:190-198 | a labelling that starts at 0 on the source, grows by at most one along an entry, and names only path lengths gives the shortest-path distances |
| Closeness.Distances | algoritmos.py:190-198 | the search labels exactly the vertices reachable from `v`, each with its shortest-path distance, and the insertion order lists them with `v` first |
| Closeness.Discover | algoritmos.py:195-198 | scanning the popped vertex labels each unlabelled neighbour one level further and queues it |
| Closeness.LabelNbr | algoritmos.py:196-198 | one neighbour is labelled and queued unless it already had a label |
| Closeness.SumAtLeast | algoritmos.py:200-201 | the distances add up to at least the number of other vertices reached |
| Closeness.ScoreBounds | algoritmos.py:203-211 | the raw value lies in [0, 1], and is positive exactly when another vertex is reached |
| Closeness.ReachesOther | algoritmos.py:200 | `reachable > 0` exactly when `v` reaches some other vertex |
| Closeness.ClosenessOf | algoritmos.py:190-213 | the pair is the ratio of reached vertices to total distance, normalised by `n - 1`, and satisfies `Rated` |
| Closeness.ClosenessCentrality | algoritmos.py:181-216 | one entry per vertex; its pair is the `Score` of the vertex's shortest-path distances (reached vertices over their total distance, and that normalised); the raw value lies in [0, 1] and is positive exactly when the vertex reaches another |
| Betweenness.VisitEntry | algoritmos.py:149-154 | the new queue, levels, path counts and predecessor lists are `Visit` of the old ones: an unreached neighbour `w` is queued at level `d[v] + 1`; then, if `w` is at level `d[v] + 1`, `sigma[w]` gains `sigma[v]` and `v` joins `P[w]`; the labelling and counting invariants are kept |
| Betweenness.VisitStep | algoritmos.py:149-154 | the branch structure of the loop body computes exactly `Visit` |
| Betweenness.Expand | algoritmos.py:146-154 | scanning the popped vertex gives `Scan` of its entries (one `Visit` per entry, in list order), keeps the labelling, queue and counting invariants, and only extends the discovery order |
| Betweenness.ScanEntries | algoritmos.py:148-154 | the loop over the popped vertex's entries computes `Scan` and keeps the scanning invariant |
| Betweenness.SearchStep | algoritmos.py:146-154 | one pass of the loop is `Pop`: the front vertex joins `S` and its entries are scanned; it keeps the search invariant, and one more vertex is popped |
| Betweenness.SearchAll | algoritmos.py:145-154 | the loop empties the queue, keeps the search invariant, and ends in the state `Run` gives (repeated `Pop`) |
| Betweenness.BrandesSearch | algoritmos.py:139-154 | `S` lists the vertices reachable from `s`, `s` first, in nondecreasing level; the levels are shortest-path distances, and unreached vertices keep `-1` and `0`; reached path counts are positive; each recorded predecessor lies one level before and has an entry to its vertex; and `S`, `d`, `sigma`, `P` are those of `Searched(g, s)` |
| Betweenness.Accumulate | algoritmos.py:156-163 | the new centrality is `Drain` of `S` from all-zero dependencies: each popped `w` other than `s` gains its dependency after `Spread`; the keys gained are exactly those `w`, values stay nonnegative, none decreases, and the rest are unchanged |
| Betweenness.PopDependency | algoritmos.py:157-163 | one pop is one step of `Drain`: what the remaining stack drains to is unchanged; it keeps the accumulation invariant, and the stack shrinks |
| Betweenness.Propagate | algoritmos.py:159-161 | the new dependencies are `Spread` of the predecessor list; none becomes negative or decreases, and dependencies of non-predecessors are unchanged |
| Betweenness.SpreadValue | algoritmos.py:159-161 | over a duplicate-free predecessor list not containing `w`, `Spread` adds `(sigma[x] / sigma[w]) * (1 + delta[w])` to each predecessor `x` and leaves every other dependency as it was |
| Betweenness.Credit | algoritmos.py:163 | the `defaultdict` addition: an absent key counts as 0.0 and joins the end of the insertion order |
| Betweenness.Share | algoritmos.py:161 | the share passed to a predecessor is never negative |
| Betweenness.NormalizedFactor | algoritmos.py:172-176 | normalising keeps values nonnegative, the undirected factor is twice the directed one, and without normalisation the value is unchanged |
| Betweenness.Halve | algoritmos.py:167-168 | every value is halved, and the keys are unchanged |
| Betweenness.Pair | algoritmos.py:170-176 | every value is paired with its normalised value, and the keys are unchanged |
| Betweenness.BetweennessCentrality | algoritmos.py:130-178 | the result names exactly the vertices reached from some other vertex; each raw value is half the vertex's `Accumulated` total over the sources in iteration order (on directed graphs too), is nonnegative, and is paired with its normalisation |
| Betweenness.AccumulatedSnoc | algoritmos.py:135-163 | processing one more source adds that source's `Drain`, from its own search, to the total of the sources before it |

## Left out

- The CSV loader `carregar_dados_padronizados`, `__str__`, the program's entry point and command-line handling are not part of this model. All progress and result printing is left out: it is output only.
- Python floats are modelled as exact reals, so rounding is not modelled.
- `heapq` order among entries of equal weight is not modelled. `SpanningTree.PopMin` takes out some entry of least weight, which leaves the tie-breaking open.
- Python's recursion limit, which the recursive searches of `componentes_fortemente_conexas` could hit on deep graphs, is not modelled.
- KeyError paths are not modelled: the algorithms assume a closed store (`Closed`). Every store built through `adicionar_aresta` is closed (`GraphStore.AddEdgePreservesWf`).
- SpanningTree.Prim: proves the greedy light-edge property of every edge, not that the total is minimal over all spanning trees.
- Betweenness.BrandesSearch: path counts are proved positive on reached vertices, not equal to the number of shortest paths. Recorded predecessors are proved to be shortest-path predecessors, but not proved to be all of them.
- Betweenness.Accumulate: the result is proved equal to `Drain`, an exact fold of the source's loop, but `Drain` is not proved equal to Brandes' sum of pair dependencies over shortest paths.
- Betweenness.BetweennessCentrality: the value is proved to be half of `Accumulated`, an exact fold of the source's loops over all sources, but not proved equal to the sum over vertex pairs of the fraction of shortest paths through the vertex.
- Betweenness.SpreadValue: states the per-predecessor amount for duplicate-free predecessor lists only; a neighbour listed twice in one adjacency list (which the store invariant excludes) would record a predecessor twice and add its share twice, and that case is covered only by `Spread` itself.
- Builders.ActorGraphWeight: the weight of an actor's self-pair (one actor listed twice in one cast) is left out. The source would then add a self-loop whose weight doubles on repeats, as `GraphStore.AddEdgeWeight` states.
- The `vertices=` subset argument that the program's entry point passes to closeness does not exist in `closeness_centrality`, which always rates every vertex. The model follows the function.

## Findings

| source | as written | input that shows it | evidently intended | confidence | as-written member | corrected member |
|---|---|---|---|---|---|---|
| grafo.py:104 | `obter_info` returns `num_arestas // 2` for undirected graphs, but grafo.py:94-99 increments `num_arestas` once per new unordered pair | `Grafo(False)`, then `adicionar_aresta("a", "b", 1)`: the store joins one pair, and `obter_info()` reports `(2, 0)` | the number of edges, `num_arestas` itself | not executed | GraphStore.InfoAsWritten, GraphStore.InfoHalvesOneEdge | GraphStore.Counts, GraphStore.Graph.Info |
