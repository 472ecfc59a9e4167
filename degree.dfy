/** Degree centrality (`degree_centrality`, algoritmos.py:102-127): for every
    vertex its in-, out- or total degree, optionally divided by `n - 1`. */
module Degree {
  import opened Adjacency
  import opened GraphStore
  import opened Traversal

  /** Entries pointing at `v` in the lists of the vertices `us`, in that order:
      the generator sum of algoritmos.py:113 and 117. */
  function InCount(adj: AdjMap, us: seq<Vertex>, v: Vertex): nat
  {
    if us == [] then 0
    else InCount(adj, us[..|us| - 1], v) + CountNbr(AdjOf(adj, us[|us| - 1]), v)
  }

  /** The vertices of `vs` whose list names `v`: its predecessors. */
  ghost function Preds(adj: AdjMap, vs: set<Vertex>, v: Vertex): set<Vertex>
  {
    set u | u in vs && v in Nbrs(AdjOf(adj, u))
  }

  /** `grau` of algoritmos.py:111-121 for `v`, the vertices being iterated in
      `vorder`: in a directed graph the in-degree for `"in"`, the out-degree
      (list length) for `"out"` and their sum for any other mode; in an
      undirected graph the list length whatever the mode. */
  function DegreeOf(g: GraphData, vorder: seq<Vertex>, v: Vertex, mode: string): nat
  {
    if g.directed then
      if mode == "in" then InCount(g.adj, vorder, v)
      else if mode == "out" then |AdjOf(g.adj, v)|
      else InCount(g.adj, vorder, v) + |AdjOf(g.adj, v)|
    else |AdjOf(g.adj, v)|
  }

  /** The second value of algoritmos.py:123: divided by `n - 1` when
      normalising a graph of more than one vertex. */
  function Normalized(grau: nat, n: nat, normalize: bool): real
  {
    if normalize && n > 1 then grau as real / (n - 1) as real else grau as real
  }

  /** The in-degree generator of algoritmos.py:113, as the nested loop it runs. */
  method InDegree(g: GraphData, vorder: seq<Vertex>, v: Vertex) returns (grau: nat)
    ensures grau == InCount(g.adj, vorder, v)
  {
    grau := 0;
    var i := 0;
    while i < |vorder|
      invariant 0 <= i <= |vorder|
      invariant grau == InCount(g.adj, vorder[..i], v)
    {
      var l := AdjOf(g.adj, vorder[i]);
      ghost var before := grau;
      var k := 0;
      while k < |l|
        invariant 0 <= k <= |l|
        invariant grau == before + CountNbr(l[..k], v)
      {
        assert l[..k + 1][..k] == l[..k];
        if l[k].nbr == v {
          grau := grau + 1;
        }
        k := k + 1;
      }
      assert l[..k] == l;
      assert vorder[..i + 1][..i] == vorder[..i];
      i := i + 1;
    }
    assert vorder[..i] == vorder;
  }

  /** `degree_centrality(grafo, mode, normalizar)` (algoritmos.py:102-127),
      the vertices being iterated in `vorder`: one entry per vertex, its
      degree for `mode` and that degree normalised. */
  method DegreeCentrality(g: GraphData, vorder: seq<Vertex>, mode: string, normalize: bool)
    returns (result: map<Vertex, (nat, real)>)
    requires Enumerates(vorder, g.vertices)
    ensures result.Keys == g.vertices
    ensures forall v :: v in result ==>
      result[v] == (DegreeOf(g, vorder, v, mode), Normalized(DegreeOf(g, vorder, v, mode), |g.vertices|, normalize))
  {
    result := map[];
    var n := |g.vertices|;
    var i := 0;
    while i < |vorder|
      invariant 0 <= i <= |vorder|
      invariant forall v :: v in result <==> v in vorder[..i]
      invariant forall v :: v in result ==>
        result[v] == (DegreeOf(g, vorder, v, mode), Normalized(DegreeOf(g, vorder, v, mode), n, normalize))
    {
      var v := vorder[i];
      assert vorder[..i + 1] == vorder[..i] + [v];
      var grau: nat;
      if g.directed {
        if mode == "in" {
          grau := InDegree(g, vorder, v);
        } else if mode == "out" {
          grau := |AdjOf(g.adj, v)|;
        } else {
          var inDegree := InDegree(g, vorder, v);
          var outDegree := |AdjOf(g.adj, v)|;
          grau := inDegree + outDegree;
        }
      } else {
        grau := |AdjOf(g.adj, v)|;
      }
      var norm := if normalize && n > 1 then grau as real / (n - 1) as real else grau as real;
      result := result[v := (grau, norm)];
      i := i + 1;
    }
    assert vorder[..i] == vorder;
  }

  /** With distinct neighbours a list has one entry per neighbour. */
  lemma {:induction false} NbrsCard(l: seq<Entry>)
    requires DistinctNbrs(l)
    ensures |l| == |Nbrs(l)|
  {
    if l != [] {
      var init, last := l[..|l| - 1], l[|l| - 1];
      assert l == init + [last];
      NbrsAppend(init, last);
      forall e | e in init ensures e.nbr != last.nbr {
        var i :| 0 <= i < |init| && init[i] == e;
        assert l[i] == e;
      }
      NbrsCard(init);
    }
  }

  /** With duplicate-free lists, the in-count over duplicate-free `us` is the
      number of members of `us` whose list names `v`. */
  lemma {:induction false} InCountPreds(adj: AdjMap, us: seq<Vertex>, v: Vertex)
    requires Distinct(us) && forall u :: u in adj ==> DistinctNbrs(adj[u])
    ensures InCount(adj, us, v) == |set u | u in us && v in Nbrs(AdjOf(adj, u))|
  {
    if us != [] {
      var init, last := us[..|us| - 1], us[|us| - 1];
      DistinctPrefix(init, us);
      InCountPreds(adj, init, v);
      NotInPrefix(us);
      assert us == init + [last];
      if last in adj {
        CountDistinct(adj[last], v);
      }
      PredsSnoc(adj, init, last, v);
    }
  }

  /** A new last vertex adds one predecessor exactly when its list names `v`. */
  lemma PredsSnoc(adj: AdjMap, init: seq<Vertex>, last: Vertex, v: Vertex)
    requires last !in init
    ensures |set u | u in init + [last] && v in Nbrs(AdjOf(adj, u))|
         == |set u | u in init && v in Nbrs(AdjOf(adj, u))| + (if v in Nbrs(AdjOf(adj, last)) then 1 else 0)
  {
    var before := set u | u in init && v in Nbrs(AdjOf(adj, u));
    var after := set u | u in init + [last] && v in Nbrs(AdjOf(adj, u));
    if v in Nbrs(AdjOf(adj, last)) {
      assert after == before + {last};
    } else {
      assert after == before;
    }
  }

  /** The in-degree of algoritmos.py:113 is the number of predecessors of `v`,
      and the out-degree of algoritmos.py:115 the number of its successors;
      both are at most the number of vertices. */
  lemma DegreesCountNeighbours(g: GraphData, vorder: seq<Vertex>, v: Vertex)
    requires Closed(g.adj, g.vertices) && (forall u | u in g.adj :: DistinctNbrs(g.adj[u]))
    requires Enumerates(vorder, g.vertices)
    ensures InCount(g.adj, vorder, v) == |Preds(g.adj, g.vertices, v)| <= |g.vertices|
    ensures |AdjOf(g.adj, v)| == |Nbrs(AdjOf(g.adj, v))| <= |g.vertices|
  {
    InCountPreds(g.adj, vorder, v);
    assert (set u | u in vorder && v in Nbrs(AdjOf(g.adj, u))) == Preds(g.adj, g.vertices, v);
    SubsetCard(Preds(g.adj, g.vertices, v), g.vertices);
    if v in g.adj {
      NbrsCard(g.adj[v]);
      SubsetCard(Nbrs(g.adj[v]), g.vertices);
    }
  }

  lemma SubsetCard(a: set<Vertex>, b: set<Vertex>)
    requires a <= b
    ensures |a| <= |b|
  {
    assert b == a + (b - a);
  }

  /** In an undirected graph the list length that algoritmos.py:121 uses is
      both the number of predecessors and of successors: every mode gives
      the same degree. */
  lemma UndirectedDegree(g: GraphData, vorder: seq<Vertex>, v: Vertex, mode: string)
    requires Wf(g) && !g.directed && Enumerates(vorder, g.vertices)
    ensures DegreeOf(g, vorder, v, mode) == |Preds(g.adj, g.vertices, v)| == |Nbrs(AdjOf(g.adj, v))|
  {
    DegreesCountNeighbours(g, vorder, v);
    forall u ensures u in Preds(g.adj, g.vertices, v) <==> u in Nbrs(AdjOf(g.adj, v)) {
      if u in Preds(g.adj, g.vertices, v) {
        MirroredNbrs(g.adj, u, v);
      }
      if u in Nbrs(AdjOf(g.adj, v)) {
        MirroredNbrs(g.adj, v, u);
        assert v in g.adj;
      }
    }
    assert Preds(g.adj, g.vertices, v) == Nbrs(AdjOf(g.adj, v));
  }

  /** Entries pointing at the members of `vs`, list by list. */
  function CountAll(l: seq<Entry>, vs: seq<Vertex>): nat
  {
    if vs == [] then 0 else CountAll(l, vs[..|vs| - 1]) + CountNbr(l, vs[|vs| - 1])
  }

  /** The in-degrees of the members of `vs`, counted over the lists of `us`. */
  function InTotal(adj: AdjMap, us: seq<Vertex>, vs: seq<Vertex>): nat
  {
    if vs == [] then 0 else InTotal(adj, us, vs[..|vs| - 1]) + InCount(adj, us, vs[|vs| - 1])
  }

  /** The out-degrees (list lengths) of the members of `us`. */
  function OutTotal(adj: AdjMap, us: seq<Vertex>): nat
  {
    if us == [] then 0 else OutTotal(adj, us[..|us| - 1]) + |AdjOf(adj, us[|us| - 1])|
  }

  lemma {:induction false} CountAllNil(vs: seq<Vertex>)
    ensures CountAll([], vs) == 0
  {
    if vs != [] {
      CountAllNil(vs[..|vs| - 1]);
    }
  }

  /** One more entry adds one to the count over a duplicate-free `vs` that
      holds its neighbour, and nothing otherwise. */
  lemma {:induction false} CountAllSnoc(l: seq<Entry>, e: Entry, vs: seq<Vertex>)
    requires Distinct(vs)
    ensures CountAll(l + [e], vs) == CountAll(l, vs) + (if e.nbr in vs then 1 else 0)
  {
    if vs != [] {
      var init, last := vs[..|vs| - 1], vs[|vs| - 1];
      DistinctPrefix(init, vs);
      CountAllSnoc(l, e, init);
      assert (l + [e])[..|l|] == l;
      assert vs == init + [last];
      NotInPrefix(vs);
    }
  }

  /** Counted over a duplicate-free `vs` holding all its neighbours, a list's
      entries add up to its length. */
  lemma {:induction false} CountAllLength(l: seq<Entry>, vs: seq<Vertex>)
    requires Distinct(vs) && forall x :: x in Nbrs(l) ==> x in vs
    ensures CountAll(l, vs) == |l|
  {
    if l == [] {
      CountAllNil(vs);
    } else {
      var init, last := l[..|l| - 1], l[|l| - 1];
      assert l == init + [last];
      NbrsAppend(init, last);
      CountAllLength(init, vs);
      CountAllSnoc(init, last, vs);
    }
  }

  lemma {:induction false} InTotalNil(adj: AdjMap, vs: seq<Vertex>)
    ensures InTotal(adj, [], vs) == 0
  {
    if vs != [] {
      InTotalNil(adj, vs[..|vs| - 1]);
    }
  }

  /** Adding the list of `u` to the sum adds its entries towards `vs`. */
  lemma {:induction false} InTotalSnoc(adj: AdjMap, us: seq<Vertex>, u: Vertex, vs: seq<Vertex>)
    ensures InTotal(adj, us + [u], vs) == InTotal(adj, us, vs) + CountAll(AdjOf(adj, u), vs)
  {
    if vs != [] {
      InTotalSnoc(adj, us, u, vs[..|vs| - 1]);
      assert (us + [u])[..|us|] == us;
    }
  }

  /** Every entry has one tail and one head: over duplicate-free `vs` holding
      every neighbour, the in-degrees add up to the out-degrees. */
  lemma {:induction false} HandshakeOver(adj: AdjMap, us: seq<Vertex>, vs: seq<Vertex>)
    requires Distinct(vs) && forall u, x :: u in us && x in Nbrs(AdjOf(adj, u)) ==> x in vs
    ensures InTotal(adj, us, vs) == OutTotal(adj, us)
  {
    if us == [] {
      InTotalNil(adj, vs);
    } else {
      var init, last := us[..|us| - 1], us[|us| - 1];
      assert us == init + [last];
      HandshakeOver(adj, init, vs);
      InTotalSnoc(adj, init, last, vs);
      CountAllLength(AdjOf(adj, last), vs);
    }
  }

  /** The in-degrees of algoritmos.py:113 over all vertices add up to the
      out-degrees of algoritmos.py:115, whatever the iteration order. */
  lemma Handshake(g: GraphData, vorder: seq<Vertex>)
    requires Closed(g.adj, g.vertices) && Enumerates(vorder, g.vertices)
    ensures InTotal(g.adj, vorder, vorder) == OutTotal(g.adj, vorder)
  {
    HandshakeOver(g.adj, vorder, vorder);
  }
}
