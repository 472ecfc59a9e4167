/** Connected components (`componentes_conexas`, algoritmos.py:6-30): for each
    unvisited vertex, in the iteration order of `grafo.vertices`, an iterative
    depth-first search with an explicit stack collects one component. */
module Components {
  import opened Adjacency
  import opened GraphStore
  import opened Traversal

  /** Every neighbour of a member of `comps[k]` lies in `comps[0]`, ..., `comps[k]`. */
  ghost predicate NbrsSoFar(adj: AdjMap, comps: seq<seq<Vertex>>)
  {
    forall k, x, y :: 0 <= k < |comps| && x in comps[k] && y in Nbrs(AdjOf(adj, x)) ==>
      y in Flatten(comps[..k + 1])
  }

  /** Every member of a component is reachable from the component's first vertex. */
  ghost predicate ReachFromFirst(adj: AdjMap, comps: seq<seq<Vertex>>)
  {
    forall k, x :: 0 <= k < |comps| && x in comps[k] ==> comps[k] != [] && Reaches(adj, comps[k][0], x)
  }

  /** `componentes_conexas(grafo)` (algoritmos.py:6-30), with the iteration
      order of `grafo.vertices` given as `order`. */
  method ConnectedComponents(g: GraphData, order: seq<Vertex>) returns (comps: seq<seq<Vertex>>)
    requires Closed(g.adj, g.vertices) && Enumerates(order, g.vertices)
    ensures forall k :: 0 <= k < |comps| ==> comps[k] != []
    ensures Distinct(Flatten(comps))
    ensures forall x :: x in Flatten(comps) <==> x in g.vertices
    ensures ReachFromFirst(g.adj, comps)
    ensures NbrsSoFar(g.adj, comps)
  {
    var visited: set<Vertex> := {};
    comps := [];
    var i := 0;
    while i < |order|
      invariant 0 <= i <= |order|
      invariant visited <= g.vertices
      invariant forall x :: x in Flatten(comps) <==> x in visited
      invariant Distinct(Flatten(comps))
      invariant forall j :: 0 <= j < i ==> order[j] in visited
      invariant forall k :: 0 <= k < |comps| ==> comps[k] != []
      invariant ReachFromFirst(g.adj, comps)
      invariant NbrsSoFar(g.adj, comps)
    {
      var v := order[i];
      if v !in visited {
        var visited', comp := Explore(g, v, visited);
        AddComponent(g.adj, comps, comp, visited, visited');
        comps, visited := comps + [comp], visited';
      }
      i := i + 1;
    }
  }

  /** Appending a freshly explored component keeps the loop's invariants. */
  lemma AddComponent(adj: AdjMap, comps: seq<seq<Vertex>>, comp: seq<Vertex>, visited: set<Vertex>, visited': set<Vertex>)
    requires forall x :: x in Flatten(comps) <==> x in visited
    requires Distinct(Flatten(comps)) && Distinct(comp) && comp != []
    requires forall x :: x in comp <==> x in visited' && x !in visited
    requires visited <= visited'
    requires ReachFromFirst(adj, comps) && NbrsSoFar(adj, comps)
    requires forall x :: x in comp ==> Reaches(adj, comp[0], x)
    requires forall x, y :: x in comp && y in Nbrs(AdjOf(adj, x)) ==> y in visited'
    ensures var comps' := comps + [comp];
      && (forall x :: x in Flatten(comps') <==> x in visited')
      && Distinct(Flatten(comps'))
      && ReachFromFirst(adj, comps') && NbrsSoFar(adj, comps')
  {
    var comps' := comps + [comp];
    FlattenSnoc(comps, comp);
    Traversal.DistinctAppend(Flatten(comps), comp);
    forall k, x | 0 <= k < |comps'| && x in comps'[k]
      ensures comps'[k] != [] && Reaches(adj, comps'[k][0], x)
    {
      if k < |comps| { assert comps'[k] == comps[k]; }
    }
    forall k, x, y | 0 <= k < |comps'| && x in comps'[k] && y in Nbrs(AdjOf(adj, x))
      ensures y in Flatten(comps'[..k + 1])
    {
      if k < |comps| {
        assert comps'[k] == comps[k] && comps'[..k + 1] == comps[..k + 1];
      } else {
        assert comps'[..k + 1] == comps';
      }
    }
  }

  /** The `while pilha` loop of algoritmos.py:17-25 started from `v`: the new
      component starts with `v`, holds exactly the vertices it newly visits,
      all of them reachable from `v`, and leaves no neighbour of theirs unvisited. */
  method Explore(g: GraphData, v: Vertex, visited0: set<Vertex>) returns (visited: set<Vertex>, comp: seq<Vertex>)
    requires Closed(g.adj, g.vertices) && v in g.vertices && v !in visited0 && visited0 <= g.vertices
    ensures comp != [] && comp[0] == v && Distinct(comp)
    ensures visited0 <= visited <= g.vertices
    ensures forall x :: x in comp <==> x in visited && x !in visited0
    ensures forall x :: x in comp ==> Reaches(g.adj, v, x)
    ensures forall x, y :: x in comp && y in Nbrs(AdjOf(g.adj, x)) ==> y in visited
  {
    visited := visited0;
    comp := [];
    var stack := [v];
    ReachesRefl(g.adj, v);
    while stack != []
      invariant visited0 <= visited <= g.vertices
      invariant forall x :: x in comp <==> x in visited && x !in visited0
      invariant Distinct(comp)
      invariant comp == [] ==> stack == [v] && visited == visited0
      invariant comp != [] ==> comp[0] == v
      invariant forall x :: x in stack ==> x in g.vertices && Reaches(g.adj, v, x)
      invariant forall x :: x in comp ==> Reaches(g.adj, v, x)
      invariant forall x, y :: x in comp && y in Nbrs(AdjOf(g.adj, x)) ==> y in visited || y in stack
      decreases g.vertices - visited, |stack|
    {
      var current := stack[|stack| - 1];
      stack := stack[..|stack| - 1];
      if current !in visited {
        visited := visited + {current};
        comp := comp + [current];
        stack := PushUnvisited(g, v, current, visited, stack);
      }
    }
  }

  /** The inner `for` of algoritmos.py:23-25: push every neighbour of `current`
      that is not yet visited. */
  method PushUnvisited(g: GraphData, v: Vertex, current: Vertex, visited: set<Vertex>, stack0: seq<Vertex>)
    returns (stack: seq<Vertex>)
    requires Closed(g.adj, g.vertices) && Reaches(g.adj, v, current)
    requires forall x :: x in stack0 ==> x in g.vertices && Reaches(g.adj, v, x)
    ensures forall x :: x in stack0 ==> x in stack
    ensures forall x :: x in stack ==> x in g.vertices && Reaches(g.adj, v, x)
    ensures forall y :: y in Nbrs(AdjOf(g.adj, current)) ==> y in visited || y in stack
  {
    stack := stack0;
    var l := AdjOf(g.adj, current);
    var j := 0;
    while j < |l|
      invariant 0 <= j <= |l|
      invariant forall x :: x in stack0 ==> x in stack
      invariant forall x :: x in stack ==> x in g.vertices && Reaches(g.adj, v, x)
      invariant forall k :: 0 <= k < j ==> l[k].nbr in visited || l[k].nbr in stack
    {
      var w := l[j].nbr;
      assert l[j] in l;
      if w !in visited {
        ReachesStep(g.adj, v, current, w);
        stack := stack + [w];
      }
      j := j + 1;
    }
    forall y | y in Nbrs(l) ensures y in visited || y in stack {
      var e :| e in l && e.nbr == y;
      var k :| 0 <= k < |l| && l[k] == e;
    }
  }

  /** On an undirected graph every neighbour of a component member lies in the
      same component, so each component is exactly the set of vertices
      reachable from its first vertex. */
  lemma UndirectedComponents(adj: AdjMap, comps: seq<seq<Vertex>>, k: nat, x: Vertex)
    requires Mirrored(adj) && Distinct(Flatten(comps))
    requires ReachFromFirst(adj, comps) && NbrsSoFar(adj, comps)
    requires k < |comps| && comps[k] != []
    ensures forall y :: y in comps[k] && x in Nbrs(AdjOf(adj, y)) ==> x in comps[k]
    ensures x in comps[k] <==> Reaches(adj, comps[k][0], x)
  {
    forall y | y in comps[k] && x in Nbrs(AdjOf(adj, y)) ensures x in comps[k] {
      NbrInSameComponent(adj, comps, k, y, x);
    }
    if Reaches(adj, comps[k][0], x) {
      var members := set z | z in comps[k];
      forall a, b | a in members && b in Nbrs(AdjOf(adj, a)) ensures b in members {
        NbrInSameComponent(adj, comps, k, a, b);
      }
      ClosedReach(adj, members, comps[k][0], x);
    }
  }

  lemma NbrInSameComponent(adj: AdjMap, comps: seq<seq<Vertex>>, k: nat, y: Vertex, x: Vertex)
    requires Mirrored(adj) && Distinct(Flatten(comps)) && NbrsSoFar(adj, comps)
    requires k < |comps| && y in comps[k] && x in Nbrs(AdjOf(adj, y))
    ensures x in comps[k]
  {
    var j := ComponentOf(comps, k, x);
    if j < k {
      MirroredNbrs(adj, y, x);
      var i := ComponentOf(comps, j, y);
      FlattenDisjoint(comps, i, k, y);
    }
  }

  /** An element of `Flatten(comps[..k + 1])` lies in one of `comps[0]`, ..., `comps[k]`. */
  lemma ComponentOf(comps: seq<seq<Vertex>>, k: nat, x: Vertex) returns (j: nat)
    requires k < |comps| && x in Flatten(comps[..k + 1])
    ensures j <= k && x in comps[j]
  {
    FlattenMember(comps[..k + 1], x);
    j :| 0 <= j < k + 1 && x in comps[..k + 1][j];
  }
}
