/** Closeness centrality (`closeness_centrality`, algoritmos.py:181-216): a
    breadth-first search from every vertex, and the ratio of the number of
    other vertices it reaches to the sum of their distances. */
module Closeness {
  import opened Adjacency
  import opened GraphStore
  import opened Traversal
  import opened ShortestPaths

  /** Labels along `order`: at most `d` before `head`, exactly `d` from `head`
      up to `mid`, and `d + 1` from `mid` on. */
  ghost predicate Levels(dist: map<Vertex, int>, order: seq<Vertex>, head: nat, mid: nat, d: int)
    requires forall x :: x in order ==> x in dist
  {
    && (forall i :: 0 <= i < head && i < |order| ==> dist[order[i]] <= d)
    && (forall i :: head <= i < mid && i < |order| ==> dist[order[i]] == d)
    && (forall i :: mid <= i < |order| ==> dist[order[i]] == d + 1)
  }

  /** The search of algoritmos.py:190-198 after `head` pops: `order` lists the
      keys of `dist` in insertion order, `fila` is its unpopped tail, labels
      in the queue are those of its front up to `mid` and one more after it,
      every popped vertex has all its neighbours labelled at most one level
      further, and every label is the length of a path from `v`. */
  ghost predicate BfsState(adj: AdjMap, v: Vertex, dist: map<Vertex, int>, order: seq<Vertex>,
                           head: nat, mid: nat, fila: seq<Vertex>)
  {
    && order != [] && order[0] == v && head <= mid <= |order| && fila == order[head..]
    && Distinct(order) && (forall x :: x in dist <==> x in order)
    && dist[v] == 0
    && (forall i :: 0 < i < |order| ==> dist[order[i]] >= 1)
    && (head < |order| ==> Levels(dist, order, head, mid, dist[order[head]]))
    && (forall i, x {:trigger x in Nbrs(AdjOf(adj, order[i]))} :: 0 <= i < head && x in Nbrs(AdjOf(adj, order[i])) ==>
          x in dist && dist[x] <= dist[order[i]] + 1)
    && Witnessed(adj, v, dist)
  }

  /** The search from `v` (algoritmos.py:190-198): `dist` labels exactly the
      vertices reachable from `v`, each with its shortest-path distance, and
      `order` is the insertion order of its keys, `v` first. */
  method Distances(g: GraphData, v: Vertex) returns (dist: map<Vertex, int>, order: seq<Vertex>)
    requires Closed(g.adj, g.vertices)
    ensures order != [] && order[0] == v && Distinct(order)
    ensures forall x :: x in dist <==> x in order
    ensures dist[v] == 0 && forall i :: 0 < i < |order| ==> dist[order[i]] >= 1
    ensures ShortestFrom(g.adj, v, dist)
  {
    dist := map[v := 0];
    order := [v];
    var fila := [v];
    ghost var head, mid := 0, 1;
    ReachesInZero(g.adj, v);
    while fila != []
      invariant BfsState(g.adj, v, dist, order, head, mid, fila)
      invariant dist.Keys <= g.vertices + {v}
      decreases g.vertices + {v} - dist.Keys, |fila|
    {
      var u := fila[0];
      BfsPop(g.adj, v, dist, order, head, mid, fila);
      fila := fila[1..];
      head := head + 1;
      ghost var keys0 := dist.Keys;
      dist, order, fila, mid := Discover(g, v, u, head, mid, dist, order, fila);
      if dist.Keys != keys0 {
        DiffShrinks(g.vertices + {v}, keys0, dist.Keys);
      }
    }
    BfsDone(g.adj, v, dist, order, head, mid);
  }

  /** The front of the queue is the next vertex of `order`, and popping it
      leaves the rest of the queue. */
  lemma BfsPop(adj: AdjMap, v: Vertex, dist: map<Vertex, int>, order: seq<Vertex>,
               head: nat, mid: nat, fila: seq<Vertex>)
    requires BfsState(adj, v, dist, order, head, mid, fila) && fila != []
    ensures head < |order| && order[head] == fila[0]
    ensures BfsState(adj, v, dist, order, head, mid, [fila[0]] + fila[1..])
  {
    assert [fila[0]] + fila[1..] == fila;
  }

  /** With the queue empty every labelled vertex has been popped. */
  lemma BfsDone(adj: AdjMap, v: Vertex, dist: map<Vertex, int>, order: seq<Vertex>, head: nat, mid: nat)
    requires BfsState(adj, v, dist, order, head, mid, [])
    ensures ShortestFrom(adj, v, dist)
  {
    forall y, x | y in dist && x in Nbrs(AdjOf(adj, y)) ensures x in dist && dist[x] <= dist[y] + 1 {
      var i :| 0 <= i < |order| && order[i] == y;
    }
    LayeredShortest(adj, v, dist);
  }

  /** The search's state while the neighbours of `u = order[head - 1]` are
      labelled: as `BfsState` with `u` at the front of the queue, and every
      label at most one level beyond `u`'s. */
  ghost predicate Labelling(adj: AdjMap, v: Vertex, u: Vertex, head: nat, mid: nat, dist: map<Vertex, int>, order: seq<Vertex>)
  {
    && 0 < head <= mid <= |order| && order[head - 1] == u
    && order[0] == v && Distinct(order) && (forall x :: x in dist <==> x in order)
    && dist[v] == 0
    && (forall i :: 0 < i < |order| ==> dist[order[i]] >= 1)
    && Levels(dist, order, head - 1, mid, dist[u])
    && (forall i, x {:trigger x in Nbrs(AdjOf(adj, order[i]))} :: 0 <= i < head - 1 && x in Nbrs(AdjOf(adj, order[i])) ==>
          x in dist && dist[x] <= dist[order[i]] + 1)
    && Witnessed(adj, v, dist)
  }

  /** The `for w, _ in grafo.lista_adj.get(u, [])` loop of algoritmos.py:195-198,
      `u` being the vertex just popped (`order[head - 1]`): every neighbour
      not yet labelled gets `dist[u] + 1` and joins the queue. */
  method Discover(g: GraphData, v: Vertex, u: Vertex, ghost head: nat, ghost mid0: nat,
                  dist0: map<Vertex, int>, order0: seq<Vertex>, fila0: seq<Vertex>)
    returns (dist: map<Vertex, int>, order: seq<Vertex>, fila: seq<Vertex>, ghost mid: nat)
    requires Closed(g.adj, g.vertices) && dist0.Keys <= g.vertices + {v}
    requires 0 < head <= |order0| && u == order0[head - 1]
    requires BfsState(g.adj, v, dist0, order0, head - 1, mid0, [u] + fila0)
    ensures BfsState(g.adj, v, dist, order, head, mid, fila)
    ensures dist0.Keys <= dist.Keys <= g.vertices + {v}
    ensures dist.Keys == dist0.Keys ==> fila == fila0
  {
    dist, order, fila := dist0, order0, fila0;
    StartLabelling(g.adj, v, u, head, mid0, dist, order);
    var j := 0;
    while j < |AdjOf(g.adj, u)|
      invariant Scanned(g, v, u, head, mid0, dist0, fila0, j, dist, order, fila)
    {
      dist, order, fila := LabelNbr(g, v, u, head, mid0, dist0, fila0, j, dist, order, fila);
      j := j + 1;
    }
    var l := AdjOf(g.adj, u);
    forall x | x in Nbrs(l) ensures x in dist && dist[x] <= dist[u] + 1 {
      var e :| e in l && e.nbr == x;
      var k :| 0 <= k < |l| && l[k] == e;
    }
    mid := EndLabelling(g.adj, v, u, head, mid0, dist, order);
  }

  /** The state of that loop after its first `j` entries: the labelling
      invariant holds, the queue is the tail of `order` after `head`, only
      vertices were added, and those `j` neighbours are labelled at most one
      level beyond `u`. */
  ghost predicate Scanned(g: GraphData, v: Vertex, u: Vertex, head: nat, mid: nat,
                          dist0: map<Vertex, int>, fila0: seq<Vertex>, j: nat,
                          dist: map<Vertex, int>, order: seq<Vertex>, fila: seq<Vertex>)
  {
    && j <= |AdjOf(g.adj, u)| && head <= |order| && fila == order[head..]
    && dist0.Keys <= dist.Keys <= g.vertices + {v}
    && (dist.Keys == dist0.Keys ==> fila == fila0)
    && Labelling(g.adj, v, u, head, mid, dist, order)
    && forall k :: 0 <= k < j ==> AdjOf(g.adj, u)[k].nbr in dist && dist[AdjOf(g.adj, u)[k].nbr] <= dist[u] + 1
  }

  /** One pass of that loop, for the neighbour `w` in entry `j`: label and
      queue it unless it already has a label. */
  method LabelNbr(g: GraphData, v: Vertex, u: Vertex, ghost head: nat, ghost mid: nat,
                  ghost dist0: map<Vertex, int>, ghost fila0: seq<Vertex>, j: nat,
                  dist1: map<Vertex, int>, order1: seq<Vertex>, fila1: seq<Vertex>)
    returns (dist: map<Vertex, int>, order: seq<Vertex>, fila: seq<Vertex>)
    requires Closed(g.adj, g.vertices) && j < |AdjOf(g.adj, u)|
    requires Scanned(g, v, u, head, mid, dist0, fila0, j, dist1, order1, fila1)
    ensures Scanned(g, v, u, head, mid, dist0, fila0, j + 1, dist, order, fila)
  {
    var w := AdjOf(g.adj, u)[j].nbr;
    assert AdjOf(g.adj, u)[j] in AdjOf(g.adj, u);
    EntryTarget(g, u, w);
    dist, order, fila := dist1, order1, fila1;
    if w !in dist {
      ScannedNew(g, v, u, head, mid, dist0, fila0, j, dist, order, fila);
      dist := dist[w := dist[u] + 1];
      order := order + [w];
      fila := fila + [w];
    } else {
      ScannedOld(g, v, u, head, mid, dist0, fila0, j, dist, order, fila);
    }
  }

  /** Entry `j` names an unlabelled vertex: labelling and queueing it keeps the scan's invariant. */
  lemma ScannedNew(g: GraphData, v: Vertex, u: Vertex, head: nat, mid: nat,
                   dist0: map<Vertex, int>, fila0: seq<Vertex>, j: nat,
                   dist: map<Vertex, int>, order: seq<Vertex>, fila: seq<Vertex>)
    requires j < |AdjOf(g.adj, u)|
    requires Scanned(g, v, u, head, mid, dist0, fila0, j, dist, order, fila)
    requires AdjOf(g.adj, u)[j].nbr !in dist && AdjOf(g.adj, u)[j].nbr in g.vertices
    ensures var w := AdjOf(g.adj, u)[j].nbr;
      Scanned(g, v, u, head, mid, dist0, fila0, j + 1, dist[w := dist[u] + 1], order + [w], fila + [w])
  {
    var w := AdjOf(g.adj, u)[j].nbr;
    assert AdjOf(g.adj, u)[j] in AdjOf(g.adj, u);
    LabelStep(g.adj, v, u, head, mid, dist, order, w);
    assert (order + [w])[head..] == order[head..] + [w];
    assert forall k :: 0 <= k < j ==> AdjOf(g.adj, u)[k].nbr in dist && AdjOf(g.adj, u)[k].nbr != w;
  }

  /** Entry `j` names a labelled vertex, whose label is at most one beyond `u`'s. */
  lemma ScannedOld(g: GraphData, v: Vertex, u: Vertex, head: nat, mid: nat,
                   dist0: map<Vertex, int>, fila0: seq<Vertex>, j: nat,
                   dist: map<Vertex, int>, order: seq<Vertex>, fila: seq<Vertex>)
    requires j < |AdjOf(g.adj, u)|
    requires Scanned(g, v, u, head, mid, dist0, fila0, j, dist, order, fila)
    requires AdjOf(g.adj, u)[j].nbr in dist
    ensures Scanned(g, v, u, head, mid, dist0, fila0, j + 1, dist, order, fila)
  {
    LabelledBound(g.adj, v, u, head, mid, dist, order, AdjOf(g.adj, u)[j].nbr);
  }

  /** On a closed store every neighbour is a vertex. */
  lemma EntryTarget(g: GraphData, u: Vertex, w: Vertex)
    requires Closed(g.adj, g.vertices) && w in Nbrs(AdjOf(g.adj, u))
    ensures w in g.vertices
  {
  }

  /** Popping `u` starts its labelling. */
  lemma StartLabelling(adj: AdjMap, v: Vertex, u: Vertex, head: nat, mid: nat, dist: map<Vertex, int>, order: seq<Vertex>)
    requires 0 < head <= |order| && u == order[head - 1]
    requires BfsState(adj, v, dist, order, head - 1, mid, order[head - 1..])
    ensures Labelling(adj, v, u, head, mid, dist, order)
  {
    assert dist[order[head - 1]] == dist[u];
  }

  /** During the labelling every label is at most one level beyond `u`'s. */
  lemma LabelledBound(adj: AdjMap, v: Vertex, u: Vertex, head: nat, mid: nat, dist: map<Vertex, int>, order: seq<Vertex>, w: Vertex)
    requires Labelling(adj, v, u, head, mid, dist, order) && w in dist
    ensures dist[w] <= dist[u] + 1
  {
    var i :| 0 <= i < |order| && order[i] == w;
    if i < head - 1 {
    } else if i < mid {
    } else {
    }
  }

  /** Labelling an unlabelled neighbour `w` of `u` with `dist[u] + 1` and
      queueing it keeps the labelling invariant. */
  lemma LabelStep(adj: AdjMap, v: Vertex, u: Vertex, head: nat, mid: nat, dist: map<Vertex, int>, order: seq<Vertex>, w: Vertex)
    requires Labelling(adj, v, u, head, mid, dist, order) && w !in dist && w in Nbrs(AdjOf(adj, u))
    ensures Labelling(adj, v, u, head, mid, dist[w := dist[u] + 1], order + [w])
  {
    var dist' := dist[w := dist[u] + 1];
    var order' := order + [w];
    Traversal.DistinctAppend(order, [w]);
    assert order'[head - 1] == u && dist'[u] == dist[u];
    forall i | 0 <= i < |order| ensures order'[i] == order[i] && dist'[order[i]] == dist[order[i]] {
      assert order[i] in dist;
    }
    assert Levels(dist', order', head - 1, mid, dist[u]);
    WitnessStep(adj, v, u, dist, w);
  }

  /** A neighbour of `u` labelled one beyond `u` is at the end of a path that
      long. */
  lemma WitnessStep(adj: AdjMap, v: Vertex, u: Vertex, dist: map<Vertex, int>, w: Vertex)
    requires Witnessed(adj, v, dist) && u in dist && w in Nbrs(AdjOf(adj, u))
    ensures Witnessed(adj, v, dist[w := dist[u] + 1])
  {
    var dist' := dist[w := dist[u] + 1];
    forall x | x in dist' ensures dist'[x] >= 0 && ReachesIn(adj, v, x, dist'[x]) {
      if x == w {
        assert ReachesIn(adj, v, u, dist[u]);
        ReachesInStep(adj, v, u, w, dist[u]);
      } else {
        assert dist'[x] == dist[x] && ReachesIn(adj, v, x, dist[x]);
      }
    }
  }

  /** Once every neighbour of `u` is labelled, `u` counts as popped; the new
      front's level ends at `mid`. */
  lemma EndLabelling(adj: AdjMap, v: Vertex, u: Vertex, head: nat, mid0: nat, dist: map<Vertex, int>, order: seq<Vertex>)
    returns (mid: nat)
    requires Labelling(adj, v, u, head, mid0, dist, order)
    requires forall x :: x in Nbrs(AdjOf(adj, u)) ==> x in dist && dist[x] <= dist[u] + 1
    ensures BfsState(adj, v, dist, order, head, mid, order[head..])
  {
    if head < mid0 {
      mid := mid0;
      assert dist[order[head]] == dist[u];
    } else {
      mid := |order|;
      if head < |order| {
        assert dist[order[head]] == dist[u] + 1;
      }
    }
  }

  /** `sum(dist.values())`, taken in the insertion order `order`. */
  function SumOver(dist: map<Vertex, int>, order: seq<Vertex>): int
    requires forall x :: x in order ==> x in dist
  {
    if order == [] then 0 else SumOver(dist, order[..|order| - 1]) + dist[order[|order| - 1]]
  }

  /** Every vertex after the first is at distance at least 1, so the distances
      add up to at least the number of vertices reached besides the source. */
  lemma {:induction false} SumAtLeast(dist: map<Vertex, int>, order: seq<Vertex>)
    requires order != [] && (forall x :: x in order ==> x in dist) && dist[order[0]] >= 0
    requires forall i :: 0 < i < |order| ==> dist[order[i]] >= 1
    ensures SumOver(dist, order) >= |order| - 1
  {
    if |order| > 1 {
      var init := order[..|order| - 1];
      assert init[0] == order[0];
      SumAtLeast(dist, init);
    } else {
      assert order[..0] == [];
    }
  }

  /** The value of algoritmos.py:200-211 for `reachable` other vertices at total
      distance `total`: their ratio, or 0 when either is 0; scaled by `n - 1`
      when normalising a graph of more than one vertex. */
  function Score(reachable: int, total: int, n: int, normalize: bool): (r: (real, real))
  {
    var raw := if reachable > 0 && total > 0 then reachable as real / total as real else 0.0;
    (raw, Scaled(raw, n, normalize))
  }

  /** The normalisation of algoritmos.py:207-211: the raw value times `n - 1`
      when normalising a graph of more than one vertex. */
  function Scaled(raw: real, n: int, normalize: bool): real
  {
    if normalize && n > 1 then raw * (n - 1) as real else raw
  }

  /** The closeness of one vertex `v` (algoritmos.py:190-211). Its raw value
      lies in [0, 1], and is positive exactly when `v` reaches another vertex;
      `dist` and `order` are the search's labels and their insertion order. */
  method ClosenessOf(g: GraphData, v: Vertex, normalize: bool) returns (raw: real, norm: real, ghost dist: map<Vertex, int>, ghost order: seq<Vertex>)
    requires Closed(g.adj, g.vertices)
    ensures ShortestFrom(g.adj, v, dist) && Enumerates(order, dist.Keys)
    ensures (raw, norm) == Score(|order| - 1, SumOver(dist, order), |g.vertices|, normalize)
    ensures Rated(g, normalize, v, (raw, norm))
  {
    var d, o := Distances(g, v);
    dist, order := d, o;
    assert |d| == |o| by { DistinctCard(o, d.Keys); }
    var reachable := |d| - 1;
    var total := SumOver(d, o);
    SumAtLeast(d, o);
    var s := Score(reachable, total, |g.vertices|, normalize);
    raw, norm := s.0, s.1;
    ScoreBounds(reachable, total, |g.vertices|, normalize);
    ReachesOther(g.adj, v, d, o);
  }

  /** The raw value lies in [0, 1], and is positive exactly when some other
      vertex was reached. */
  lemma ScoreBounds(reachable: nat, total: int, n: int, normalize: bool)
    requires reachable <= total
    ensures 0.0 <= Score(reachable, total, n, normalize).0 <= 1.0
    ensures Score(reachable, total, n, normalize).0 > 0.0 <==> reachable > 0
  {
    if reachable > 0 {
      assert 0.0 < reachable as real / total as real <= 1.0;
    }
  }

  /** The search from `v` labels some other vertex exactly when `v` reaches one. */
  lemma ReachesOther(adj: AdjMap, v: Vertex, dist: map<Vertex, int>, order: seq<Vertex>)
    requires ShortestFrom(adj, v, dist) && Enumerates(order, dist.Keys) && order != [] && order[0] == v
    ensures |order| > 1 <==> exists x :: x != v && Reaches(adj, v, x)
  {
    if |order| > 1 {
      assert order[1] != v && order[1] in dist;
    } else {
      forall x | Reaches(adj, v, x) ensures x == v {
        assert x in order;
      }
    }
  }

  /** A duplicate-free listing of a set has the set's size. */
  lemma {:induction false} DistinctCard(s: seq<Vertex>, vs: set<Vertex>)
    requires Distinct(s) && forall x :: x in s <==> x in vs
    ensures |s| == |vs|
  {
    if s != [] {
      var last := s[|s| - 1];
      var init := s[..|s| - 1];
      forall x ensures x in init <==> x in vs - {last} {
        if x in init {
          var i :| 0 <= i < |init| && init[i] == x;
          assert s[i] == x;
        }
        if x in vs - {last} {
          var i :| 0 <= i < |s| && s[i] == x;
          assert i < |s| - 1 && init[i] == x;
        }
      }
      DistinctCard(init, vs - {last});
    } else {
      assert forall x :: x !in vs;
    }
  }

  /** What algoritmos.py:181-216 promises of the entry `s` of `v`: its raw
      value lies in [0, 1] and is positive exactly when `v` reaches another
      vertex, and its second value is the raw one scaled by `n - 1` when
      normalising a graph of more than one vertex. */
  ghost predicate Rated(g: GraphData, normalize: bool, v: Vertex, s: (real, real))
  {
    && 0.0 <= s.0 <= 1.0
    && (s.0 > 0.0 <==> exists x :: x != v && Reaches(g.adj, v, x))
    && s.1 == Scaled(s.0, |g.vertices|, normalize)
  }

  /** The entry `s` of `v` is the value of algoritmos.py:200-211 for the
      shortest-path labels `dist` of the search from `v`, summed in an
      insertion order `order` of them. */
  ghost predicate Scored(g: GraphData, normalize: bool, v: Vertex, s: (real, real))
  {
    exists dist, order :: ShortestFrom(g.adj, v, dist) && Enumerates(order, dist.Keys) &&
      s == Score(|order| - 1, SumOver(dist, order), |g.vertices|, normalize)
  }

  /** `closeness_centrality(grafo, normalizar)` (algoritmos.py:181-216), taking
      the vertices in the iteration order `vorder`: one entry per vertex, each
      the `Score` of its shortest-path distances, and as `Rated` says. */
  method ClosenessCentrality(g: GraphData, vorder: seq<Vertex>, normalize: bool) returns (result: map<Vertex, (real, real)>)
    requires Closed(g.adj, g.vertices) && Enumerates(vorder, g.vertices)
    ensures result.Keys == g.vertices
    ensures forall v :: v in result ==> Scored(g, normalize, v, result[v])
    ensures forall v :: v in result ==> Rated(g, normalize, v, result[v])
  {
    result := map[];
    var i := 0;
    while i < |vorder|
      invariant 0 <= i <= |vorder|
      invariant forall v :: v in result <==> v in vorder[..i]
      invariant forall v :: v in result ==> Scored(g, normalize, v, result[v])
      invariant forall v :: v in result ==> Rated(g, normalize, v, result[v])
    {
      var v := vorder[i];
      assert vorder[..i + 1] == vorder[..i] + [v];
      var raw, norm, dist, order := ClosenessOf(g, v, normalize);
      assert Scored(g, normalize, v, (raw, norm));
      result := result[v := (raw, norm)];
      i := i + 1;
    }
    assert vorder[..i] == vorder;
  }
}
