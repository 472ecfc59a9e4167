/** The weighted adjacency-list graph store (`Grafo`, grafo.py:61-105).

    `GraphData` is the store's whole state as a value; the class `Graph`
    holds the same state in mutable fields, and the analysis algorithms
    receive its `Data()`, which they only read. */
module GraphStore {
  import opened Adjacency

  /** `direcionado`, `lista_adj`, `vertices` and `num_arestas`. */
  datatype GraphData = GraphData(directed: bool, adj: AdjMap, vertices: set<Vertex>, numEdges: int)

  /** The state right after `Grafo(direcionado)`. */
  function Empty(directed: bool): GraphData
  {
    GraphData(directed, map[], {}, 0)
  }

  /** Ordered pairs `(u, v)` such that `u`'s list has an entry for `v`. */
  ghost function Arcs(adj: AdjMap): set<(Vertex, Vertex)>
  {
    set u, v | u in adj && v in Nbrs(adj[u]) :: (u, v)
  }

  /** Unordered pairs `{u, v}` (a singleton for a self-loop) joined by some entry. */
  ghost function Links(adj: AdjMap): set<set<Vertex>>
  {
    set u, v | u in adj && v in Nbrs(adj[u]) :: {u, v}
  }

  /** Every entry between distinct vertices has an equal-weight mirror entry. */
  ghost predicate Mirrored(adj: AdjMap)
  {
    forall u, v, w :: u != v ==> (Entry(v, w) in AdjOf(adj, u) <==> Entry(u, w) in AdjOf(adj, v))
  }

  /** The invariant `adicionar_aresta` maintains: every name used is a vertex,
      no list names a neighbour twice, undirected lists mirror each other, and
      `num_arestas` counts the distinct ordered (directed) or unordered
      (undirected) pairs that are joined. */
  ghost predicate Wf(g: GraphData)
  {
    && Closed(g.adj, g.vertices)
    && (forall u | u in g.adj :: DistinctNbrs(g.adj[u]))
    && (if g.directed then g.numEdges == |Arcs(g.adj)|
        else Mirrored(g.adj) && g.numEdges == |Links(g.adj)|)
  }

  /** The new state after `adicionar_aresta(u, v, peso)` (grafo.py:75-99).
      Reading `lista_adj[u]` (and, undirected, `lista_adj[v]`) through the
      defaultdict creates the key, which is why `u` (and `v`) always become keys. */
  function AddEdgeSpec(g: GraphData, u: Vertex, v: Vertex, p: int): GraphData
  {
    var lu := AdjOf(g.adj, u);
    var vs := g.vertices + {u, v};
    if v in Nbrs(lu) then
      var adj1 := g.adj[u := Bump(lu, FirstIndex(lu, v), p)];
      if g.directed then g.(adj := adj1, vertices := vs)
      else g.(adj := adj1[v := BumpAll(AdjOf(adj1, v), u, p)], vertices := vs)
    else
      var adj1 := g.adj[u := lu + [Entry(v, p)]];
      var lv := AdjOf(adj1, v);
      var adj2 := if g.directed then adj1
                  else if u in Nbrs(lv) then adj1[v := lv]
                  else adj1[v := lv + [Entry(u, p)]];
      g.(adj := adj2, vertices := vs, numEdges := g.numEdges + 1)
  }

  lemma ArcsMember(adj: AdjMap, x: Vertex, y: Vertex)
    ensures (x, y) in Arcs(adj) <==> y in Nbrs(AdjOf(adj, x))
  {
  }

  lemma LinksMember(adj: AdjMap, x: Vertex, y: Vertex)
    requires y in Nbrs(AdjOf(adj, x))
    ensures {x, y} in Links(adj)
  {
  }

  /** Two stores whose lists name the same neighbours join the same pairs. */
  lemma SameNbrsSamePairs(a: AdjMap, b: AdjMap)
    requires forall x :: Nbrs(AdjOf(a, x)) == Nbrs(AdjOf(b, x))
    ensures Arcs(a) == Arcs(b) && Links(a) == Links(b)
  {
    forall q | q in Arcs(a) ensures q in Arcs(b) {
      ArcsMember(a, q.0, q.1);
      ArcsMember(b, q.0, q.1);
    }
    forall q | q in Arcs(b) ensures q in Arcs(a) {
      ArcsMember(a, q.0, q.1);
      ArcsMember(b, q.0, q.1);
    }
    forall s | s in Links(a) ensures s in Links(b) {
      var x, y :| x in a && y in Nbrs(a[x]) && s == {x, y};
      assert y in Nbrs(AdjOf(b, x));
      LinksMember(b, x, y);
    }
    forall s | s in Links(b) ensures s in Links(a) {
      var x, y :| x in b && y in Nbrs(b[x]) && s == {x, y};
      assert y in Nbrs(AdjOf(a, x));
      LinksMember(a, x, y);
    }
  }

  /** A new entry `u -> v` adds exactly one ordered pair. */
  lemma ArcsGrow(a: AdjMap, b: AdjMap, u: Vertex, v: Vertex)
    requires v !in Nbrs(AdjOf(a, u))
    requires forall x :: Nbrs(AdjOf(b, x)) == Nbrs(AdjOf(a, x)) + (if x == u then {v} else {})
    ensures |Arcs(b)| == |Arcs(a)| + 1
  {
    forall q | q in Arcs(b) ensures q in Arcs(a) + {(u, v)} {
      ArcsMember(a, q.0, q.1);
      ArcsMember(b, q.0, q.1);
    }
    forall q | q in Arcs(a) + {(u, v)} ensures q in Arcs(b) {
      ArcsMember(a, q.0, q.1);
      ArcsMember(b, q.0, q.1);
    }
    ArcsMember(a, u, v);
    assert Arcs(b) == Arcs(a) + {(u, v)};
  }

  lemma PairCases(x: Vertex, y: Vertex, u: Vertex, v: Vertex)
    requires {x, y} == {u, v}
    ensures (x == u && y == v) || (x == v && y == u)
  {
    assert x in {u, v} && y in {u, v} && u in {x, y} && v in {x, y};
  }

  /** The neighbours of every vertex after a new pair of mirrored entries
      `u -> v`, `v -> u` (one entry for a self-loop). */
  ghost predicate GrownBy(a: AdjMap, b: AdjMap, u: Vertex, v: Vertex)
  {
    forall x :: Nbrs(AdjOf(b, x)) ==
      Nbrs(AdjOf(a, x)) + (if x == u then {v} else {}) + (if x == v then {u} else {})
  }

  lemma LinksGrowSubset(a: AdjMap, b: AdjMap, u: Vertex, v: Vertex)
    requires GrownBy(a, b, u, v)
    ensures Links(b) <= Links(a) + {{u, v}}
  {
    forall s | s in Links(b) ensures s in Links(a) + {{u, v}} {
      var x, y :| x in b && y in Nbrs(b[x]) && s == {x, y};
      assert Nbrs(AdjOf(b, x)) ==
        Nbrs(AdjOf(a, x)) + (if x == u then {v} else {}) + (if x == v then {u} else {});
      if y in Nbrs(AdjOf(a, x)) {
        LinksMember(a, x, y);
      } else {
        assert s == {u, v};
      }
    }
  }

  lemma LinksGrowSuperset(a: AdjMap, b: AdjMap, u: Vertex, v: Vertex)
    requires GrownBy(a, b, u, v)
    ensures Links(a) + {{u, v}} <= Links(b)
  {
    forall s | s in Links(a) + {{u, v}} ensures s in Links(b) {
      if s == {u, v} {
        assert Nbrs(AdjOf(b, u)) ==
          Nbrs(AdjOf(a, u)) + {v} + (if u == v then {u} else {});
        LinksMember(b, u, v);
      } else {
        var x, y :| x in a && y in Nbrs(a[x]) && s == {x, y};
        assert Nbrs(AdjOf(b, x)) ==
          Nbrs(AdjOf(a, x)) + (if x == u then {v} else {}) + (if x == v then {u} else {});
        LinksMember(b, x, y);
      }
    }
  }

  /** A new pair of mirrored entries adds exactly one unordered pair. */
  lemma LinksGrow(a: AdjMap, b: AdjMap, u: Vertex, v: Vertex)
    requires v !in Nbrs(AdjOf(a, u)) && u !in Nbrs(AdjOf(a, v))
    requires GrownBy(a, b, u, v)
    ensures |Links(b)| == |Links(a)| + 1
  {
    LinksGrowSubset(a, b, u, v);
    LinksGrowSuperset(a, b, u, v);
    assert {u, v} !in Links(a) by {
      if {u, v} in Links(a) {
        var x, y :| x in a && y in Nbrs(a[x]) && {u, v} == {x, y};
        PairCases(x, y, u, v);
        assert false;
      }
    }
    assert Links(b) == Links(a) + {{u, v}};
  }

  /** The lists of a store after `adicionar_aresta`, vertex by vertex, when the
      entry `u -> v` already exists: same neighbours, same lengths. */
  lemma AddEdgeExistingLists(g: GraphData, u: Vertex, v: Vertex, p: int, x: Vertex)
    requires Wf(g) && v in Nbrs(AdjOf(g.adj, u))
    ensures AddEdgeSpec(g, u, v, p).numEdges == g.numEdges
    ensures var l' := AdjOf(AddEdgeSpec(g, u, v, p).adj, x);
      && Nbrs(l') == Nbrs(AdjOf(g.adj, x))
      && |l'| == |AdjOf(g.adj, x)|
      && DistinctNbrs(l')
  {
    var lu := AdjOf(g.adj, u);
    var i := FirstIndex(lu, v);
    NbrsBump(lu, i, p);
    var adj1 := g.adj[u := Bump(lu, i, p)];
    if !g.directed {
      NbrsBumpAll(AdjOf(adj1, v), u, p);
    }
  }

  /** The lists of a store after `adicionar_aresta` when `u -> v` is new: `u`
      gains the entry `(v, peso)` and, undirected, `v` gains `(u, peso)`. */
  lemma AddEdgeNewLists(g: GraphData, u: Vertex, v: Vertex, p: int, x: Vertex)
    requires Wf(g) && v !in Nbrs(AdjOf(g.adj, u))
    ensures AddEdgeSpec(g, u, v, p).numEdges == g.numEdges + 1
    ensures var l := AdjOf(g.adj, x);
      var l' := AdjOf(AddEdgeSpec(g, u, v, p).adj, x);
      l' == if x == u then l + [Entry(v, p)]
            else if x == v && !g.directed then l + [Entry(u, p)]
            else l
    ensures !g.directed ==> u !in Nbrs(AdjOf(g.adj, v))
    ensures DistinctNbrs(AdjOf(AddEdgeSpec(g, u, v, p).adj, x))
  {
    var lu := AdjOf(g.adj, u);
    var lv := AdjOf(g.adj, v);
    if !g.directed && u != v && u in Nbrs(lv) {
      var w := NbrEntry(lv, u);
    }
    var adj1 := g.adj[u := lu + [Entry(v, p)]];
    NbrsAppend(lu, Entry(v, p));
    if x == u {
      DistinctAppend(lu, Entry(v, p));
    } else if x == v && !g.directed {
      assert AdjOf(adj1, v) == lv;
      DistinctAppend(lv, Entry(u, p));
    }
  }

  /** The list of `x` after `adicionar_aresta(u, v, peso)` when `u -> v` already
      exists: `u`'s entry for `v` is raised (grafo.py:86) and, undirected, every
      entry for `u` in `v`'s list as well (grafo.py:88-90). */
  lemma AddEdgeExistingShape(g: GraphData, u: Vertex, v: Vertex, p: int, x: Vertex)
    requires v in Nbrs(AdjOf(g.adj, u))
    ensures var lu := AdjOf(g.adj, u);
      var lu1 := Bump(lu, FirstIndex(lu, v), p);
      var l := AdjOf(g.adj, x);
      AdjOf(AddEdgeSpec(g, u, v, p).adj, x) ==
        if g.directed || (u != v && x != v) then (if x == u then lu1 else l)
        else if u == v then (if x == u then BumpAll(lu1, u, p) else l)
        else BumpAll(l, u, p)
  {
  }

  /** In a mirrored store, being a neighbour is symmetric. */
  lemma MirroredNbrs(adj: AdjMap, x: Vertex, y: Vertex)
    requires Mirrored(adj) && y in Nbrs(AdjOf(adj, x))
    ensures x in Nbrs(AdjOf(adj, y))
  {
    if x != y {
      var w := NbrEntry(AdjOf(adj, x), y);
      assert Entry(x, w) in AdjOf(adj, y);
    }
  }

  /** Whichever branch runs, `adicionar_aresta(u, v, peso)` makes `v` a neighbour
      of `u` and, undirected, `u` a neighbour of `v`, and changes no other
      neighbourhood. */
  lemma AddEdgeNbrs(g: GraphData, u: Vertex, v: Vertex, p: int, x: Vertex)
    requires Wf(g)
    ensures Nbrs(AdjOf(AddEdgeSpec(g, u, v, p).adj, x)) ==
      Nbrs(AdjOf(g.adj, x)) + (if x == u then {v} else {}) + (if !g.directed && x == v then {u} else {})
  {
    var lu := AdjOf(g.adj, u);
    var l := AdjOf(g.adj, x);
    if v in Nbrs(lu) {
      AddEdgeExistingLists(g, u, v, p, x);
      if !g.directed && x == v && u != v {
        var w := NbrEntry(lu, v);
        assert Entry(u, w) in l;
      }
    } else {
      AddEdgeNewLists(g, u, v, p, x);
      NbrsAppend(l, Entry(v, p));
      NbrsAppend(l, Entry(u, p));
    }
  }

  /** The entries of each list after `adicionar_aresta` when `u -> v` already
      exists with weight `w0`: that entry and its mirror (undirected) gain `peso`;
      an undirected self-loop gains it twice, through grafo.py:86 and grafo.py:90. */
  lemma AddEdgeExistingEntries(g: GraphData, u: Vertex, v: Vertex, p: int, x: Vertex, z: Vertex, w: int)
    requires Wf(g) && v in Nbrs(AdjOf(g.adj, u))
    ensures var lu := AdjOf(g.adj, u);
      var w0 := lu[FirstIndex(lu, v)].weight;
      var l := AdjOf(g.adj, x);
      var l' := AdjOf(AddEdgeSpec(g, u, v, p).adj, x);
      Entry(z, w) in l' <==>
        if g.directed then
          if x == u then (z != v && Entry(z, w) in l) || (z == v && w == w0 + p)
          else Entry(z, w) in l
        else if u == v then
          if x == u then (z != u && Entry(z, w) in l) || (z == u && w == w0 + p + p)
          else Entry(z, w) in l
        else if x == u then (z != v && Entry(z, w) in l) || (z == v && w == w0 + p)
        else if x == v then (z != u && Entry(z, w) in l) || (z == u && w == w0 + p)
        else Entry(z, w) in l
  {
    var lu := AdjOf(g.adj, u);
    var i := FirstIndex(lu, v);
    AddEdgeExistingShape(g, u, v, p, x);
    assert DistinctNbrs(lu);
    if g.directed || (u != v && x != v) {
      if x == u { EntriesBump(lu, i, p, z, w); }
    } else if u == v {
      if x == u { SelfLoopEntries(lu, i, p, z, w); }
    } else {
      var l := AdjOf(g.adj, x);
      assert Entry(u, lu[i].weight) in l by { assert Entry(v, lu[i].weight) in lu; }
      MirrorEntries(lu, l, u, v, p, z, w);
    }
  }

  /** An existing undirected self-loop entry raised by grafo.py:86 and then again by grafo.py:90. */
  lemma SelfLoopEntries(lu: seq<Entry>, i: nat, p: int, z: Vertex, w: int)
    requires i < |lu| && DistinctNbrs(lu)
    ensures var u := lu[i].nbr;
      Entry(z, w) in BumpAll(Bump(lu, i, p), u, p) <==>
        (z != u && Entry(z, w) in lu) || (z == u && w == lu[i].weight + p + p)
  {
    var lu1 := Bump(lu, i, p);
    NbrsBump(lu, i, p);
    EntriesBumpAll(lu1, lu[i].nbr, p, z, w);
    EntriesBump(lu, i, p, z, w - p);
    EntriesBump(lu, i, p, z, w);
  }

  /** The mirror list `l` of `v` after grafo.py:88-90, when `u`'s list holds `(v, w0)`. */
  lemma MirrorEntries(lu: seq<Entry>, l: seq<Entry>, u: Vertex, v: Vertex, p: int, z: Vertex, w: int)
    requires v in Nbrs(lu) && DistinctNbrs(lu)
    requires forall w1 :: Entry(u, w1) in l ==> Entry(v, w1) in lu
    requires Entry(u, lu[FirstIndex(lu, v)].weight) in l
    ensures Entry(z, w) in BumpAll(l, u, p) <==>
      (z != u && Entry(z, w) in l) || (z == u && w == lu[FirstIndex(lu, v)].weight + p)
  {
    var w0 := lu[FirstIndex(lu, v)].weight;
    assert Entry(v, w0) in lu;
    EntriesBumpAll(l, u, p, z, w);
    if z == u && Entry(u, w - p) in l {
      EntryUnique(lu, v, w - p, w0);
    }
  }

  lemma AddEdgeMirrored(g: GraphData, u: Vertex, v: Vertex, p: int)
    requires Wf(g) && !g.directed
    ensures Mirrored(AddEdgeSpec(g, u, v, p).adj)
  {
    var g' := AddEdgeSpec(g, u, v, p);
    var lu := AdjOf(g.adj, u);
    forall x, y, w | x != y
      ensures Entry(y, w) in AdjOf(g'.adj, x) <==> Entry(x, w) in AdjOf(g'.adj, y)
    {
      assert Entry(y, w) in AdjOf(g.adj, x) <==> Entry(x, w) in AdjOf(g.adj, y);
      if v in Nbrs(lu) {
        AddEdgeExistingEntries(g, u, v, p, x, y, w);
        AddEdgeExistingEntries(g, u, v, p, y, x, w);
      } else {
        AddEdgeNewLists(g, u, v, p, x);
        AddEdgeNewLists(g, u, v, p, y);
        if Entry(y, w) in AdjOf(g.adj, x) { EntryNbr(AdjOf(g.adj, x), y, w); }
        if Entry(x, w) in AdjOf(g.adj, y) { EntryNbr(AdjOf(g.adj, y), x, w); }
      }
    }
  }

  /** Every name stays a vertex and no list gains a repeated neighbour. */
  lemma AddEdgeClosed(g: GraphData, u: Vertex, v: Vertex, p: int)
    requires Wf(g)
    ensures var g' := AddEdgeSpec(g, u, v, p);
      && Closed(g'.adj, g'.vertices)
      && (forall x | x in g'.adj :: DistinctNbrs(g'.adj[x]))
  {
    var g' := AddEdgeSpec(g, u, v, p);
    var lu := AdjOf(g.adj, u);
    forall x | x in g'.adj
      ensures x in g'.vertices && Nbrs(g'.adj[x]) <= g'.vertices && DistinctNbrs(g'.adj[x])
    {
      if v in Nbrs(lu) {
        AddEdgeExistingLists(g, u, v, p, x);
      } else {
        AddEdgeNewLists(g, u, v, p, x);
        NbrsAppend(AdjOf(g.adj, x), Entry(v, p));
        NbrsAppend(AdjOf(g.adj, x), Entry(u, p));
      }
    }
  }

  lemma AddEdgeSamePairs(g: GraphData, u: Vertex, v: Vertex, p: int)
    requires Wf(g) && v in Nbrs(AdjOf(g.adj, u))
    ensures var a' := AddEdgeSpec(g, u, v, p).adj;
      Arcs(a') == Arcs(g.adj) && Links(a') == Links(g.adj)
  {
    var g' := AddEdgeSpec(g, u, v, p);
    forall x ensures Nbrs(AdjOf(g'.adj, x)) == Nbrs(AdjOf(g.adj, x)) {
      AddEdgeExistingLists(g, u, v, p, x);
    }
    SameNbrsSamePairs(g.adj, g'.adj);
  }

  lemma AddEdgeNewArc(g: GraphData, u: Vertex, v: Vertex, p: int)
    requires Wf(g) && g.directed && v !in Nbrs(AdjOf(g.adj, u))
    ensures |Arcs(AddEdgeSpec(g, u, v, p).adj)| == |Arcs(g.adj)| + 1
  {
    var g' := AddEdgeSpec(g, u, v, p);
    forall x ensures Nbrs(AdjOf(g'.adj, x)) == Nbrs(AdjOf(g.adj, x)) + (if x == u then {v} else {}) {
      AddEdgeNewLists(g, u, v, p, x);
      NbrsAppend(AdjOf(g.adj, x), Entry(v, p));
    }
    ArcsGrow(g.adj, g'.adj, u, v);
  }

  lemma AddEdgeNewLink(g: GraphData, u: Vertex, v: Vertex, p: int)
    requires Wf(g) && !g.directed && v !in Nbrs(AdjOf(g.adj, u))
    ensures |Links(AddEdgeSpec(g, u, v, p).adj)| == |Links(g.adj)| + 1
  {
    var g' := AddEdgeSpec(g, u, v, p);
    forall x ensures Nbrs(AdjOf(g'.adj, x)) ==
      Nbrs(AdjOf(g.adj, x)) + (if x == u then {v} else {}) + (if x == v then {u} else {})
    {
      AddEdgeNewLists(g, u, v, p, x);
      NbrsAppend(AdjOf(g.adj, x), Entry(v, p));
      NbrsAppend(AdjOf(g.adj, x), Entry(u, p));
    }
    AddEdgeNewLists(g, u, v, p, u);
    LinksGrow(g.adj, g'.adj, u, v);
  }

  /** `num_arestas` keeps counting the joined pairs. */
  lemma AddEdgeCount(g: GraphData, u: Vertex, v: Vertex, p: int)
    requires Wf(g)
    ensures var g' := AddEdgeSpec(g, u, v, p);
      if g.directed then g'.numEdges == |Arcs(g'.adj)| else g'.numEdges == |Links(g'.adj)|
  {
    if v in Nbrs(AdjOf(g.adj, u)) {
      AddEdgeSamePairs(g, u, v, p);
    } else if g.directed {
      AddEdgeNewArc(g, u, v, p);
    } else {
      AddEdgeNewLink(g, u, v, p);
    }
  }

  /** `adicionar_aresta` preserves the store invariant. */
  lemma AddEdgePreservesWf(g: GraphData, u: Vertex, v: Vertex, p: int)
    requires Wf(g)
    ensures Wf(AddEdgeSpec(g, u, v, p))
  {
    AddEdgeClosed(g, u, v, p);
    AddEdgeCount(g, u, v, p);
    if !g.directed { AddEdgeMirrored(g, u, v, p); }
  }

  /** How much weight `a`'s list records towards `b` after `adicionar_aresta(u, v, peso)`:
      `peso` more on the entry `u -> v` and, undirected, on its mirror `v -> u`;
      an undirected self-loop that already exists gains `2 * peso`, because the
      updates of grafo.py:86 and grafo.py:90 land on the same list. */
  lemma AddEdgeWeight(g: GraphData, u: Vertex, v: Vertex, p: int, a: Vertex, b: Vertex)
    requires Wf(g)
    ensures WeightOf(AdjOf(AddEdgeSpec(g, u, v, p).adj, a), b) ==
      WeightOf(AdjOf(g.adj, a), b) +
      if g.directed then (if a == u && b == v then p else 0)
      else if u == v then (if a == u && b == u then (if v in Nbrs(AdjOf(g.adj, u)) then 2 * p else p) else 0)
      else if (a == u && b == v) || (a == v && b == u) then p
      else 0
  {
    if v in Nbrs(AdjOf(g.adj, u)) {
      AddEdgeWeightExisting(g, u, v, p, a, b);
    } else {
      var l := AdjOf(g.adj, a);
      AddEdgeNewLists(g, u, v, p, a);
      WeightAppend(l, Entry(v, p), b);
      WeightAppend(l, Entry(u, p), b);
    }
  }

  lemma AddEdgeWeightExisting(g: GraphData, u: Vertex, v: Vertex, p: int, a: Vertex, b: Vertex)
    requires Wf(g) && v in Nbrs(AdjOf(g.adj, u))
    ensures WeightOf(AdjOf(AddEdgeSpec(g, u, v, p).adj, a), b) ==
      WeightOf(AdjOf(g.adj, a), b) +
      if g.directed then (if a == u && b == v then p else 0)
      else if u == v then (if a == u && b == u then 2 * p else 0)
      else if (a == u && b == v) || (a == v && b == u) then p
      else 0
  {
    var lu := AdjOf(g.adj, u);
    var i := FirstIndex(lu, v);
    var lu1 := Bump(lu, i, p);
    var l := AdjOf(g.adj, a);
    var l' := AdjOf(AddEdgeSpec(g, u, v, p).adj, a);
    if g.directed || (u != v && a != v) {
      assert l' == if a == u then lu1 else l;
      WeightBump(lu, i, p, b);
    } else if u == v {
      assert l' == if a == u then BumpAll(lu1, u, p) else l;
      if a == u {
        WeightBump(lu, i, p, b);
        NbrsBump(lu, i, p);
        WeightBumpAll(lu1, u, p, b);
        CountDistinct(lu1, u);
      }
    } else {
      assert l' == BumpAll(l, u, p);
      WeightBumpAll(l, u, p, b);
      var w := NbrEntry(lu, v);
      assert Entry(u, w) in l;
      CountDistinct(l, u);
    }
  }

  /** `obter_info()` as grafo.py:101-105 writes it: the vertex count, and
      `num_arestas` halved for undirected graphs. On a well-formed store
      that is the number of joined ordered pairs (directed) or half the
      number of joined unordered pairs (undirected). */
  function InfoAsWritten(g: GraphData): (r: (int, int))
    requires Wf(g)
    ensures r.0 == |g.vertices|
    ensures r.1 == if g.directed then |Arcs(g.adj)| else |Links(g.adj)| / 2
  {
    (|g.vertices|, if g.directed then g.numEdges else g.numEdges / 2)
  }

  /** What `obter_info` is documented to return: the vertex count and the
      number of edges, `num_arestas` itself, which already counts every
      unordered pair of an undirected graph once. */
  function Counts(g: GraphData): (r: (int, int))
    requires Wf(g)
    ensures r.0 == |g.vertices|
    ensures r.1 == if g.directed then |Arcs(g.adj)| else |Links(g.adj)|
  {
    (|g.vertices|, g.numEdges)
  }

  /** One undirected edge between two actors: the store joins one unordered
      pair, which `Counts` reports and `InfoAsWritten` reports as none. */
  lemma InfoHalvesOneEdge()
    ensures var g := AddEdgeSpec(Empty(false), "a", "b", 1);
      Wf(g) && |Links(g.adj)| == 1 && Counts(g).1 == 1 && InfoAsWritten(g).1 == 0
  {
    var g0 := Empty(false);
    assert Arcs(g0.adj) == {} && Links(g0.adj) == {};
    AddEdgePreservesWf(g0, "a", "b", 1);
  }

  /** The mutable graph store: `Grafo` with its four attributes. */
  class Graph {
    const directed: bool
    var adj: AdjMap
    var vertices: set<Vertex>
    var numEdges: int

    function Data(): GraphData
      reads this
    {
      GraphData(directed, adj, vertices, numEdges)
    }

    ghost predicate Valid()
      reads this
    {
      Wf(Data())
    }

    /** `Grafo(direcionado)` (grafo.py:65-69). */
    constructor (directed: bool)
      ensures Valid() && Data() == Empty(directed)
    {
      this.directed := directed;
      adj := map[];
      vertices := {};
      numEdges := 0;
      new;
      assert Arcs(map[]) == {} && Links(map[]) == {};
    }

    /** `adicionar_vertice(v)` (grafo.py:71-73): idempotent, touches only `vertices`. */
    method AddVertex(v: Vertex)
      requires Valid()
      modifies this
      ensures Valid()
      ensures vertices == old(vertices) + {v} && v in vertices
      ensures adj == old(adj) && numEdges == old(numEdges)
    {
      vertices := vertices + {v};
    }

    /** `adicionar_aresta(u, v, peso)` (grafo.py:75-99). */
    method AddEdge(u: Vertex, v: Vertex, p: int)
      requires Valid()
      modifies this
      ensures Valid()
      ensures Data() == AddEdgeSpec(old(Data()), u, v, p)
    {
      ghost var g0 := Data();
      vertices := vertices + {u, v};
      UpdateLists(u, v, p);
      assert Data() == AddEdgeSpec(g0, u, v, p);
      AddEdgePreservesWf(g0, u, v, p);
    }

    /** The list updates of grafo.py:82-99, which leave `vertices` alone. */
    method UpdateLists(u: Vertex, v: Vertex, p: int)
      modifies this
      ensures var spec := AddEdgeSpec(old(Data()), u, v, p);
        adj == spec.adj && numEdges == spec.numEdges && vertices == old(vertices)
    {
      ghost var spec := AddEdgeSpec(Data(), u, v, p);
      var lu := AdjOf(adj, u);
      var idx := FindEntry(lu, v);
      if idx < |lu| {
        assert Bump(lu, idx, p) == lu[idx := Entry(v, lu[idx].weight + p)];
        adj := adj[u := lu[idx := Entry(v, lu[idx].weight + p)]];
        if !directed {
          var lv := BumpMirror(AdjOf(adj, v), u, p);
          adj := adj[v := lv];
        }
      } else {
        adj := adj[u := lu + [Entry(v, p)]];
        numEdges := numEdges + 1;
        if !directed {
          var lv := AdjOf(adj, v);
          if u !in Nbrs(lv) {
            lv := lv + [Entry(u, p)];
          }
          adj := adj[v := lv];
        }
      }
    }

    /** The scan of grafo.py:84-85 for an existing entry for `v`: its position,
        or `|l|` when there is none. */
    static method FindEntry(l: seq<Entry>, v: Vertex) returns (idx: nat)
      ensures idx <= |l|
      ensures idx == |l| <==> v !in Nbrs(l)
      ensures idx < |l| ==> v in Nbrs(l) && idx == FirstIndex(l, v)
    {
      idx := 0;
      while idx < |l|
        invariant idx <= |l|
        invariant forall j :: 0 <= j < idx ==> l[j].nbr != v
      {
        if l[idx].nbr == v {
          assert l[idx] in l;
          return;
        }
        idx := idx + 1;
      }
    }

    /** The loop of grafo.py:88-90: every entry of `v`'s list for `u` gains `p`. */
    static method BumpMirror(l0: seq<Entry>, u: Vertex, p: int) returns (l: seq<Entry>)
      ensures l == BumpAll(l0, u, p)
    {
      l := l0;
      var k := 0;
      while k < |l|
        invariant 0 <= k <= |l| == |l0|
        invariant forall j :: 0 <= j < k ==> l[j] == BumpAll(l0, u, p)[j]
        invariant forall j :: k <= j < |l| ==> l[j] == l0[j]
      {
        if l[k].nbr == u {
          l := l[k := Entry(u, l[k].weight + p)];
        }
        k := k + 1;
      }
    }

    /** `obter_info()` (grafo.py:101-105), with the edge count corrected as
        `Counts` states: the vertex count and the number of edges. */
    function Info(): (r: (int, int))
      reads this
      requires Valid()
      ensures r.0 == |vertices|
      ensures r.1 == if directed then |Arcs(adj)| else |Links(adj)|
    {
      Counts(Data())
    }
  }
}
