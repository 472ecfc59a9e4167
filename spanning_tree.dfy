/** Prim's minimum spanning tree (`agm_prim`, algoritmos.py:79-99). The heap
    `fila` is a sequence of candidate entries; a pop takes out one entry of
    least weight. */
module SpanningTree {
  import opened Adjacency
  import opened GraphStore
  import opened Traversal

  /** A heap entry `(peso, u, v)`: the entry `(v, peso)` of `u`'s list. */
  datatype Candidate = Candidate(weight: int, from: Vertex, to: Vertex)

  /** A committed tree edge `(u, v, peso)` of `agm`. */
  datatype TreeEdge = TreeEdge(from: Vertex, to: Vertex, weight: int)

  /** The vertices visited once the first `k` edges of `tree` are committed:
      `start` and those edges' targets. */
  function ReachedBy(start: Vertex, tree: seq<TreeEdge>, k: nat): set<Vertex>
    requires k <= |tree|
  {
    {start} + set j | 0 <= j < k :: tree[j].to
  }

  /** The sum of the weights of `tree`. */
  function TotalWeight(tree: seq<TreeEdge>): int
  {
    if tree == [] then 0 else TotalWeight(tree[..|tree| - 1]) + tree[|tree| - 1].weight
  }

  /** Each edge joins an already reached vertex to a new one, along an entry of `adj`. */
  ghost predicate Grows(adj: AdjMap, start: Vertex, tree: seq<TreeEdge>)
  {
    forall k :: 0 <= k < |tree| ==>
      && tree[k].from in ReachedBy(start, tree, k)
      && tree[k].to !in ReachedBy(start, tree, k)
      && Entry(tree[k].to, tree[k].weight) in AdjOf(adj, tree[k].from)
  }

  /** Each edge weighs no more than any entry that leaves the vertices reached
      before it: the greedy choice of Prim's algorithm. */
  ghost predicate Light(adj: AdjMap, start: Vertex, tree: seq<TreeEdge>)
  {
    forall k, x, e ::
      (0 <= k < |tree| && x in ReachedBy(start, tree, k) && e in AdjOf(adj, x) && e.nbr !in ReachedBy(start, tree, k))
      ==> tree[k].weight <= e.weight
  }

  /** `heapq.heappop(fila)`: some entry of least weight, and the rest. */
  method PopMin(queue: seq<Candidate>) returns (c: Candidate, rest: seq<Candidate>)
    requires queue != []
    ensures multiset(rest) + multiset{c} == multiset(queue) && |rest| == |queue| - 1
    ensures forall d :: d in queue ==> c.weight <= d.weight
  {
    var m := 0;
    var i := 1;
    while i < |queue|
      invariant 0 <= m < i <= |queue|
      invariant forall j :: 0 <= j < i ==> queue[m].weight <= queue[j].weight
    {
      if queue[i].weight < queue[m].weight {
        m := i;
      }
      i := i + 1;
    }
    c := queue[m];
    rest := queue[..m] + queue[m + 1..];
    assert queue == queue[..m] + [c] + queue[m + 1..];
  }

  /** `agm_prim(grafo, inicio)` (algoritmos.py:79-99). The edges form a tree
      grown from `start`: each one joins a reached vertex to a new one along
      an entry of the adjacency, and is the lightest entry leaving the vertices
      reached before it. The tree reaches exactly the vertices reachable from
      `start`, and `cost` is its total weight. A `start` without a list yields
      no edges and cost 0. */
  method Prim(g: GraphData, start: Vertex) returns (tree: seq<TreeEdge>, cost: int)
    requires Closed(g.adj, g.vertices)
    ensures Grows(g.adj, start, tree) && Light(g.adj, start, tree)
    ensures forall x :: x in ReachedBy(start, tree, |tree|) <==> Reaches(g.adj, start, x)
    ensures cost == TotalWeight(tree)
    ensures AdjOf(g.adj, start) == [] ==> tree == [] && cost == 0
  {
    tree, cost := [], 0;
    var visited: set<Vertex> := {start};
    ReachesRefl(g.adj, start);
    var queue := PushStart(g, start);
    StartQueue(g, start, queue);
    while queue != []
      invariant PrimState(g, start, tree, cost, visited, queue)
      invariant AdjOf(g.adj, start) == [] ==> tree == [] && queue == []
      decreases g.vertices + {start} - visited, |queue|
    {
      tree, cost, visited, queue := PrimStep(g, start, tree, cost, visited, queue);
    }
    ClosedReached(g.adj, start, visited);
  }

  /** The invariant of the `while fila` loop of algoritmos.py:88-96: the
      visited vertices are those the tree reaches, all reachable from `start`;
      the tree grows greedily and `cost` is its weight; the queue holds entries
      from visited vertices, among them every entry that leaves them. */
  ghost predicate PrimState(g: GraphData, start: Vertex, tree: seq<TreeEdge>, cost: int,
                            visited: set<Vertex>, queue: seq<Candidate>)
  {
    && visited == ReachedBy(start, tree, |tree|) && visited <= g.vertices + {start}
    && Grows(g.adj, start, tree) && Light(g.adj, start, tree)
    && cost == TotalWeight(tree)
    && (forall x :: x in visited ==> Reaches(g.adj, start, x))
    && QueueOk(g, visited, queue)
    && Frontier(g.adj, visited, queue)
  }

  /** One turn of that loop: pop a lightest entry `(peso, u, v)`; when `v` is
      unvisited, commit the edge and push the entries of `v`. Either a vertex
      is newly visited, or the queue shrinks. */
  method PrimStep(g: GraphData, start: Vertex, tree0: seq<TreeEdge>, cost0: int,
                  visited0: set<Vertex>, queue0: seq<Candidate>)
    returns (tree: seq<TreeEdge>, cost: int, visited: set<Vertex>, queue: seq<Candidate>)
    requires Closed(g.adj, g.vertices) && queue0 != []
    requires PrimState(g, start, tree0, cost0, visited0, queue0)
    ensures PrimState(g, start, tree, cost, visited, queue)
    ensures tree0 <= tree
    ensures (visited0 < visited <= g.vertices + {start}) || (visited == visited0 && |queue| < |queue0|)
  {
    tree, cost, visited := tree0, cost0, visited0;
    var c, rest := PopMin(queue0);
    PopParts(queue0, c, rest);
    queue := rest;
    if c.to !in visited {
      EntryTarget(g, c.from, c.to, c.weight);
      Commit(g, start, tree, c, queue0);
      tree := tree + [TreeEdge(c.from, c.to, c.weight)];
      cost := cost + c.weight;
      ReachesStep(g.adj, start, c.from, c.to);
      visited := visited + {c.to};
      queue := PushEntries(g, c.to, visited, queue);
      Frontier2(g, visited0, c.to, queue0, c, rest, queue);
    } else {
      DropVisited(g, visited, queue0, rest, c);
    }
  }

  /** On a closed store, the target of any entry is a vertex. */
  lemma EntryTarget(g: GraphData, u: Vertex, v: Vertex, w: int)
    requires Closed(g.adj, g.vertices) && Entry(v, w) in AdjOf(g.adj, u)
    ensures v in g.vertices
  {
    assert v in Nbrs(g.adj[u]);
  }

  /** Every entry in the queue is an entry of the adjacency from a visited vertex. */
  ghost predicate QueueOk(g: GraphData, visited: set<Vertex>, queue: seq<Candidate>)
  {
    forall d :: d in queue ==> d.from in visited && Entry(d.to, d.weight) in AdjOf(g.adj, d.from)
  }

  /** Every entry leaving the visited vertices is waiting in the queue. */
  ghost predicate Frontier(adj: AdjMap, visited: set<Vertex>, queue: seq<Candidate>)
  {
    forall x, e :: x in visited && e in AdjOf(adj, x) && e.nbr !in visited ==>
      Candidate(e.weight, x, e.nbr) in queue
  }

  /** The `for viz, peso in grafo.lista_adj.get(inicio, [])` loop of
      algoritmos.py:85-86: every entry of `inicio` is pushed, in list order,
      with no test on `visitado` (a self-loop on `inicio` is pushed too, and
      dropped when popped). */
  method PushStart(g: GraphData, v: Vertex) returns (queue: seq<Candidate>)
    ensures |queue| == |AdjOf(g.adj, v)|
    ensures forall k :: 0 <= k < |queue| ==>
      queue[k] == Candidate(AdjOf(g.adj, v)[k].weight, v, AdjOf(g.adj, v)[k].nbr)
  {
    queue := [];
    var l := AdjOf(g.adj, v);
    var j := 0;
    while j < |l|
      invariant 0 <= j <= |l| && |queue| == j
      invariant forall k :: 0 <= k < j ==> queue[k] == Candidate(l[k].weight, v, l[k].nbr)
    {
      queue := queue + [Candidate(l[j].weight, v, l[j].nbr)];
      j := j + 1;
    }
  }

  /** The `for viz, p in grafo.lista_adj.get(v, [])` loop of algoritmos.py:94-96:
      push every entry of `v` towards an unvisited vertex, and only those. */
  method PushEntries(g: GraphData, v: Vertex, visited: set<Vertex>, queue0: seq<Candidate>)
    returns (queue: seq<Candidate>)
    requires v in visited
    ensures queue0 <= queue
    ensures forall d :: d in queue ==> d in queue0 || (d.from == v && Entry(d.to, d.weight) in AdjOf(g.adj, v))
    ensures forall k :: |queue0| <= k < |queue| ==>
      queue[k].from == v && queue[k].to !in visited && Entry(queue[k].to, queue[k].weight) in AdjOf(g.adj, v)
    ensures forall e :: e in AdjOf(g.adj, v) && e.nbr !in visited ==> Candidate(e.weight, v, e.nbr) in queue
    ensures AdjOf(g.adj, v) == [] ==> queue == queue0
  {
    queue := queue0;
    var l := AdjOf(g.adj, v);
    var j := 0;
    while j < |l|
      invariant 0 <= j <= |l|
      invariant queue0 <= queue
      invariant forall d :: d in queue ==> d in queue0 || (d.from == v && Entry(d.to, d.weight) in l)
      invariant forall k :: |queue0| <= k < |queue| ==>
        queue[k].from == v && queue[k].to !in visited && Entry(queue[k].to, queue[k].weight) in l
      invariant j == 0 ==> queue == queue0
      invariant forall k :: 0 <= k < j && l[k].nbr !in visited ==> Candidate(l[k].weight, v, l[k].nbr) in queue
    {
      var e := l[j];
      if e.nbr !in visited {
        queue := queue + [Candidate(e.weight, v, e.nbr)];
      }
      j := j + 1;
    }
    forall e | e in l && e.nbr !in visited ensures Candidate(e.weight, v, e.nbr) in queue {
      var k :| 0 <= k < |l| && l[k] == e;
    }
  }

  /** The start's entries, all pushed, are the whole frontier of `{start}`. */
  lemma StartQueue(g: GraphData, start: Vertex, queue: seq<Candidate>)
    requires |queue| == |AdjOf(g.adj, start)|
    requires forall k :: 0 <= k < |queue| ==>
      queue[k] == Candidate(AdjOf(g.adj, start)[k].weight, start, AdjOf(g.adj, start)[k].nbr)
    ensures QueueOk(g, {start}, queue) && Frontier(g.adj, {start}, queue)
  {
    var l := AdjOf(g.adj, start);
    forall d | d in queue ensures d.from == start && Entry(d.to, d.weight) in l {
      var k :| 0 <= k < |queue| && queue[k] == d;
      assert l[k] == Entry(d.to, d.weight);
    }
    forall e | e in l ensures Candidate(e.weight, start, e.nbr) in queue {
      var k :| 0 <= k < |l| && l[k] == e;
      assert queue[k] == Candidate(e.weight, start, e.nbr);
    }
  }

  /** What a pop leaves: every other entry of the queue is still there. */
  lemma PopParts(queue: seq<Candidate>, c: Candidate, rest: seq<Candidate>)
    requires multiset(rest) + multiset{c} == multiset(queue)
    ensures c in queue
    ensures forall d :: d in rest ==> d in queue
    ensures forall d :: d in queue ==> d == c || d in rest
  {
    assert c in multiset(queue);
    forall d | d in rest ensures d in queue {
      assert multiset(queue)[d] >= multiset(rest)[d] > 0;
    }
    forall d | d in queue ensures d == c || d in rest {
      assert d in multiset(queue);
    }
  }

  /** Committing the popped entry `c` keeps the tree growing from reached
      vertices and keeps every edge the lightest one leaving. */
  lemma Commit(g: GraphData, start: Vertex, tree: seq<TreeEdge>, c: Candidate, queue: seq<Candidate>)
    requires Grows(g.adj, start, tree) && Light(g.adj, start, tree)
    requires QueueOk(g, ReachedBy(start, tree, |tree|), queue) && c in queue
    requires c.to !in ReachedBy(start, tree, |tree|)
    requires Frontier(g.adj, ReachedBy(start, tree, |tree|), queue)
    requires forall d :: d in queue ==> c.weight <= d.weight
    ensures var tree' := tree + [TreeEdge(c.from, c.to, c.weight)];
      && Grows(g.adj, start, tree') && Light(g.adj, start, tree')
      && ReachedBy(start, tree', |tree'|) == ReachedBy(start, tree, |tree|) + {c.to}
      && TotalWeight(tree') == TotalWeight(tree) + c.weight
  {
    var t := TreeEdge(c.from, c.to, c.weight);
    var tree' := tree + [t];
    assert tree'[..|tree|] == tree;
    ReachedByAppend(start, tree, t);
    CommitGrows(g.adj, start, tree, t);
    CommitLight(g.adj, start, tree, t, queue);
  }

  /** An edge from a reached vertex to a new one, along an entry of `adj`,
      keeps the tree growing. */
  lemma CommitGrows(adj: AdjMap, start: Vertex, tree: seq<TreeEdge>, t: TreeEdge)
    requires Grows(adj, start, tree)
    requires t.from in ReachedBy(start, tree, |tree|) && t.to !in ReachedBy(start, tree, |tree|)
    requires Entry(t.to, t.weight) in AdjOf(adj, t.from)
    ensures Grows(adj, start, tree + [t])
  {
    var tree' := tree + [t];
    forall k | 0 <= k < |tree'|
      ensures && tree'[k].from in ReachedBy(start, tree', k)
              && tree'[k].to !in ReachedBy(start, tree', k)
              && Entry(tree'[k].to, tree'[k].weight) in AdjOf(adj, tree'[k].from)
    {
      ReachedByAppend(start, tree, t, k);
      if k < |tree| {
        assert tree'[k] == tree[k];
      }
    }
  }

  /** An edge no heavier than any queued entry, when the queue holds every
      entry leaving the reached vertices, keeps every edge the lightest one. */
  lemma CommitLight(adj: AdjMap, start: Vertex, tree: seq<TreeEdge>, t: TreeEdge, queue: seq<Candidate>)
    requires Light(adj, start, tree)
    requires Frontier(adj, ReachedBy(start, tree, |tree|), queue)
    requires forall d :: d in queue ==> t.weight <= d.weight
    ensures Light(adj, start, tree + [t])
  {
    var tree' := tree + [t];
    forall k, x, e | 0 <= k < |tree'| && x in ReachedBy(start, tree', k) && e in AdjOf(adj, x)
        && e.nbr !in ReachedBy(start, tree', k)
      ensures tree'[k].weight <= e.weight
    {
      ReachedByAppend(start, tree, t, k);
      if k == |tree| {
        assert Candidate(e.weight, x, e.nbr) in queue;
      } else {
        assert tree'[k] == tree[k];
      }
    }
  }

  /** Appending an edge leaves the vertices reached by the earlier edges as they
      were, and reaches its target besides. */
  lemma ReachedByAppend(start: Vertex, tree: seq<TreeEdge>, t: TreeEdge, k: nat := |tree|)
    requires k <= |tree|
    ensures ReachedBy(start, tree + [t], k) == ReachedBy(start, tree, k)
    ensures ReachedBy(start, tree + [t], |tree| + 1) == ReachedBy(start, tree, |tree|) + {t.to}
  {
    var tree' := tree + [t];
    forall j | 0 <= j < |tree| ensures tree'[j] == tree[j] {}
    assert tree'[|tree|] == t;
  }

  /** After `c.to` is visited and its entries pushed, the queue's invariants
      hold again. */
  lemma Frontier2(g: GraphData, visited: set<Vertex>, v: Vertex, queue0: seq<Candidate>, c: Candidate,
                  rest: seq<Candidate>, queue: seq<Candidate>)
    requires c.to == v && v !in visited
    requires QueueOk(g, visited, queue0) && Frontier(g.adj, visited, queue0)
    requires forall d :: d in rest ==> d in queue0
    requires forall d :: d in queue0 ==> d == c || d in rest
    requires rest <= queue
    requires forall d :: d in queue ==> d in rest || (d.from == v && Entry(d.to, d.weight) in AdjOf(g.adj, v))
    requires forall e :: e in AdjOf(g.adj, v) && e.nbr !in visited + {v} ==> Candidate(e.weight, v, e.nbr) in queue
    ensures QueueOk(g, visited + {v}, queue) && Frontier(g.adj, visited + {v}, queue)
  {
    forall x, e | x in visited + {v} && e in AdjOf(g.adj, x) && e.nbr !in visited + {v}
      ensures Candidate(e.weight, x, e.nbr) in queue
    {
      if x != v {
        var d := Candidate(e.weight, x, e.nbr);
        assert d in queue0 && d != c;
        assert d in rest;
      }
    }
  }

  /** Popping an entry whose target is already visited keeps the queue's invariants. */
  lemma DropVisited(g: GraphData, visited: set<Vertex>, queue: seq<Candidate>, rest: seq<Candidate>, c: Candidate)
    requires c.to in visited
    requires forall d :: d in rest ==> d in queue
    requires forall d :: d in queue ==> d == c || d in rest
    requires QueueOk(g, visited, queue) && Frontier(g.adj, visited, queue)
    ensures QueueOk(g, visited, rest) && Frontier(g.adj, visited, rest)
  {
  }

  /** With the queue empty, no entry leaves the visited vertices, so they are
      all that `start` reaches. */
  lemma ClosedReached(adj: AdjMap, start: Vertex, visited: set<Vertex>)
    requires start in visited && Frontier(adj, visited, [])
    ensures forall x :: Reaches(adj, start, x) ==> x in visited
  {
    forall a, b | a in visited && b in Nbrs(AdjOf(adj, a)) ensures b in visited {
      var e :| e in AdjOf(adj, a) && e.nbr == b;
    }
    forall x | Reaches(adj, start, x) ensures x in visited {
      ClosedReach(adj, visited, start, x);
    }
  }

  /** Each edge adds one vertex: `start` and the targets are all different. */
  lemma {:induction false} ReachedSize(adj: AdjMap, start: Vertex, tree: seq<TreeEdge>, k: nat)
    requires Grows(adj, start, tree) && k <= |tree|
    ensures |ReachedBy(start, tree, k)| == k + 1
  {
    if k > 0 {
      ReachedSize(adj, start, tree, k - 1);
      ReachedByStep(start, tree, k - 1);
      assert tree[k - 1].to !in ReachedBy(start, tree, k - 1);
      CardAdd(ReachedBy(start, tree, k - 1), ReachedBy(start, tree, k), tree[k - 1].to);
      assert |ReachedBy(start, tree, k - 1)| == k;
      assert |ReachedBy(start, tree, k)| == |ReachedBy(start, tree, k - 1)| + 1;
    } else {
      assert ReachedBy(start, tree, 0) == {start};
    }
  }

  lemma CardAdd(a: set<Vertex>, b: set<Vertex>, x: Vertex)
    requires x !in a && b == a + {x}
    ensures |b| == |a| + 1
  {
  }

  lemma ReachedByStep(start: Vertex, tree: seq<TreeEdge>, k: nat)
    requires k < |tree|
    ensures ReachedBy(start, tree, k + 1) == ReachedBy(start, tree, k) + {tree[k].to}
  {
    var a := set j | 0 <= j < k + 1 :: tree[j].to;
    var b := set j | 0 <= j < k :: tree[j].to;
    assert a == b + {tree[k].to} by {
      forall x | x in a ensures x in b + {tree[k].to} {
        var j :| 0 <= j < k + 1 && tree[j].to == x;
        if j < k { assert x in b; }
      }
    }
  }

  /** On a closed store, a tree grown from a vertex has fewer edges than the
      store has vertices: `len(agm) <= |vertices| - 1`. */
  lemma TreeSize(g: GraphData, start: Vertex, tree: seq<TreeEdge>)
    requires Closed(g.adj, g.vertices) && start in g.vertices && Grows(g.adj, start, tree)
    ensures |tree| <= |g.vertices| - 1
  {
    var reached := ReachedBy(start, tree, |tree|);
    ReachedSize(g.adj, start, tree, |tree|);
    forall x | x in reached ensures x in g.vertices {
      if x != start {
        var k :| 0 <= k < |tree| && tree[k].to == x;
        assert Entry(x, tree[k].weight) in AdjOf(g.adj, tree[k].from);
        assert x in Nbrs(g.adj[tree[k].from]);
      }
    }
    SubsetSize(reached, g.vertices);
  }

  lemma SubsetSize(a: set<Vertex>, b: set<Vertex>)
    requires a <= b
    ensures |a| <= |b|
  {
    assert b == a + (b - a);
  }
}
