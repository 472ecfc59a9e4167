/** Path lengths and breadth-first distances, shared by the closeness and
    betweenness centralities of algoritmos.py. */
module ShortestPaths {
  import opened Adjacency
  import opened Traversal

  /** Some path of exactly `n` entries leads from `a` to `b`. */
  ghost predicate ReachesIn(adj: AdjMap, a: Vertex, b: Vertex, n: nat)
  {
    exists p :: IsPath(adj, p) && |p| == n + 1 && p[0] == a && p[n] == b
  }

  lemma ReachesInZero(adj: AdjMap, a: Vertex)
    ensures ReachesIn(adj, a, a, 0)
  {
    assert IsPath(adj, [a]);
  }

  lemma ReachesInStep(adj: AdjMap, a: Vertex, b: Vertex, c: Vertex, n: nat)
    requires ReachesIn(adj, a, b, n) && c in Nbrs(AdjOf(adj, b))
    ensures ReachesIn(adj, a, c, n + 1)
  {
    var p :| IsPath(adj, p) && |p| == n + 1 && p[0] == a && p[n] == b;
    var q := p + [c];
    assert IsPath(adj, q) && q[0] == a && q[n + 1] == c;
  }

  lemma ReachesInReaches(adj: AdjMap, a: Vertex, b: Vertex, n: nat)
    requires ReachesIn(adj, a, b, n)
    ensures Reaches(adj, a, b)
  {
    var p :| IsPath(adj, p) && |p| == n + 1 && p[0] == a && p[n] == b;
  }

  lemma ReachesSomeLength(adj: AdjMap, a: Vertex, b: Vertex) returns (n: nat)
    requires Reaches(adj, a, b)
    ensures ReachesIn(adj, a, b, n)
  {
    var p :| IsPath(adj, p) && p[0] == a && p[|p| - 1] == b;
    n := |p| - 1;
  }

  /** A label never grows by more than one along an entry. */
  ghost predicate Layered(adj: AdjMap, dist: map<Vertex, int>)
  {
    forall y, x {:trigger x in Nbrs(AdjOf(adj, y))} ::
      y in dist && x in Nbrs(AdjOf(adj, y)) ==> x in dist && dist[x] <= dist[y] + 1
  }

  /** Every label is the length of some path from `src`. */
  ghost predicate Witnessed(adj: AdjMap, src: Vertex, dist: map<Vertex, int>)
  {
    && (forall x :: x in dist ==> dist[x] >= 0)
    && (forall x {:trigger ReachesIn(adj, src, x, dist[x])} ::
          x in dist && dist[x] >= 0 ==> ReachesIn(adj, src, x, dist[x]))
  }

  /** `dist` labels exactly the vertices reachable from `src`, each with the
      length of a shortest path to it. */
  ghost predicate ShortestFrom(adj: AdjMap, src: Vertex, dist: map<Vertex, int>)
  {
    && (forall x :: x in dist <==> Reaches(adj, src, x))
    && Witnessed(adj, src, dist)
    && (forall x, n: nat :: ReachesIn(adj, src, x, n) ==> x in dist && dist[x] <= n)
  }

  /** A labelling that starts at 0 on `src`, never grows by more than one along
      an entry, and names only path lengths, is the shortest-path distance. */
  lemma LayeredShortest(adj: AdjMap, src: Vertex, dist: map<Vertex, int>)
    requires src in dist && dist[src] == 0 && Layered(adj, dist) && Witnessed(adj, src, dist)
    ensures ShortestFrom(adj, src, dist)
  {
    forall x, n: nat | ReachesIn(adj, src, x, n) ensures x in dist && dist[x] <= n {
      var p :| IsPath(adj, p) && |p| == n + 1 && p[0] == src && p[n] == x;
      var i := 0;
      while i < n
        invariant 0 <= i <= n && p[i] in dist && dist[p[i]] <= i
      {
        assert p[i + 1] in Nbrs(AdjOf(adj, p[i]));
        i := i + 1;
      }
    }
    forall x ensures x in dist <==> Reaches(adj, src, x) {
      if x in dist {
        ReachesInReaches(adj, src, x, dist[x]);
      }
      if Reaches(adj, src, x) {
        var n := ReachesSomeLength(adj, src, x);
      }
    }
  }
}
