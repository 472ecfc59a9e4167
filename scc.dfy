/** Strongly connected components (`componentes_fortemente_conexas`,
    algoritmos.py:32-75): Kosaraju's algorithm. A first pass of recursive
    depth-first searches records vertices in finishing order (`pilha`); the
    transposed adjacency is built; a second pass pops `pilha` and collects,
    from each unvisited vertex, everything it reaches in the transposed graph.

    The searches of the first pass are described with the usual colours:
    a vertex is black once it is in the finishing list `post`, gray while it
    is visited but not yet finished, and white before it is visited. */
module StrongComponents {
  import opened Adjacency
  import opened GraphStore
  import opened Traversal

  /** `a` and `b` reach each other. */
  ghost predicate Strong(adj: AdjMap, a: Vertex, b: Vertex)
  {
    Reaches(adj, a, b) && Reaches(adj, b, a)
  }

  /** Reachability under another name. The order invariants below quantify over
      `Leads` rather than `Reaches`: their conclusions mention `Reaches` (through
      `Strong`), so their quantifiers fire only where a proof names `Leads`
      explicitly and cannot feed themselves. */
  ghost predicate Leads(adj: AdjMap, a: Vertex, b: Vertex)
  {
    Reaches(adj, a, b)
  }

  /** The visited vertices that have not finished yet. */
  function Gray(visited: set<Vertex>, post: seq<Vertex>): set<Vertex>
  {
    set x | x in visited && x !in post
  }

  /** Every neighbour of a black vertex has been visited. */
  ghost predicate BlackClosed(adj: AdjMap, post: seq<Vertex>, visited: set<Vertex>)
  {
    forall x, y :: x in post && y in Nbrs(AdjOf(adj, x)) ==> y in visited
  }

  /** A black vertex reaches an unfinished vertex only when it shares its strong
      component with some gray vertex. */
  ghost predicate ExitsViaGray(adj: AdjMap, post: seq<Vertex>, gray: set<Vertex>)
  {
    forall x, y {:trigger Leads(adj, x, y)} :: x in post && y !in post && Leads(adj, x, y) ==>
      exists z :: z in gray && Strong(adj, x, z)
  }

  /** Whatever `post[i]` reaches finished no later than some member of the strong
      component of `post[i]`, counting gray vertices as finishing after all of `post`. */
  ghost predicate FinishOrder(adj: AdjMap, post: seq<Vertex>, gray: set<Vertex>)
  {
    forall i, j {:trigger Leads(adj, post[i], post[j])} ::
      0 <= i < |post| && 0 <= j < |post| && Leads(adj, post[i], post[j]) ==>
      (exists k :: j <= k < |post| && Strong(adj, post[i], post[k])) ||
      (exists z :: z in gray && Strong(adj, post[i], z))
  }

  /** The property Kosaraju's second pass relies on: whatever a vertex reaches
      finished no later than some member of its strong component. */
  ghost predicate DfsOrdered(adj: AdjMap, post: seq<Vertex>)
  {
    forall i, j {:trigger Leads(adj, post[i], post[j])} ::
      0 <= i < |post| && 0 <= j < |post| && Leads(adj, post[i], post[j]) ==>
      exists k :: j <= k < |post| && Strong(adj, post[i], post[k])
  }

  lemma StrongRefl(adj: AdjMap, a: Vertex)
    ensures Strong(adj, a, a)
  {
    ReachesRefl(adj, a);
  }

  lemma StrongTrans(adj: AdjMap, a: Vertex, b: Vertex, c: Vertex)
    requires Strong(adj, a, b) && Strong(adj, b, c)
    ensures Strong(adj, a, c)
  {
    ReachesTrans(adj, a, b, c);
    ReachesTrans(adj, c, b, a);
  }

  /** A path from inside `b` to outside it crosses out of `b` along some entry. */
  lemma LeaveSet(adj: AdjMap, b: set<Vertex>, x: Vertex, y: Vertex) returns (a: Vertex, c: Vertex)
    requires x in b && y !in b && Reaches(adj, x, y)
    ensures a in b && c !in b && c in Nbrs(AdjOf(adj, a)) && Reaches(adj, x, c)
  {
    var p :| IsPath(adj, p) && p[0] == x && p[|p| - 1] == y;
    var i := 0;
    ReachesRefl(adj, x);
    while p[i + 1] in b
      invariant 0 <= i < |p| - 1 && p[i] in b && Reaches(adj, x, p[i])
      decreases |p| - i
    {
      ReachesStep(adj, x, p[i], p[i + 1]);
      i := i + 1;
    }
    a, c := p[i], p[i + 1];
    ReachesStep(adj, x, a, c);
  }

  /** Marking `v` gray keeps both order invariants. */
  lemma GrayGrows(adj: AdjMap, post: seq<Vertex>, gray: set<Vertex>, v: Vertex)
    requires ExitsViaGray(adj, post, gray) && FinishOrder(adj, post, gray)
    ensures ExitsViaGray(adj, post, gray + {v}) && FinishOrder(adj, post, gray + {v})
  {
    forall x, y | x in post && y !in post && Leads(adj, x, y)
      ensures exists z :: z in gray + {v} && Strong(adj, x, z)
    {
      var z :| z in gray && Strong(adj, x, z);
      assert z in gray + {v};
    }
    forall i, j | 0 <= i < |post| && 0 <= j < |post| && Leads(adj, post[i], post[j])
      ensures (exists k :: j <= k < |post| && Strong(adj, post[i], post[k])) ||
              (exists z :: z in gray + {v} && Strong(adj, post[i], z))
    {
      if !exists k :: j <= k < |post| && Strong(adj, post[i], post[k]) {
        var z :| z in gray && Strong(adj, post[i], z);
        assert z in gray + {v};
      }
    }
  }

  /** Finishing `v` (appending it to `post`) keeps every neighbour of a black
      vertex visited. */
  lemma FinishClosed(adj: AdjMap, post: seq<Vertex>, visited: set<Vertex>, v: Vertex)
    requires BlackClosed(adj, post, visited) && Nbrs(AdjOf(adj, v)) <= visited
    ensures BlackClosed(adj, post + [v], visited)
  {
  }

  /** The gray vertex through which a black vertex leaves the black set, once `v`
      has finished. */
  lemma ExitWitness(adj: AdjMap, post: seq<Vertex>, visited: set<Vertex>, gray: set<Vertex>, v: Vertex, x: Vertex, y: Vertex)
    returns (z: Vertex)
    requires forall u :: u in visited <==> u in post || u in gray || u == v
    requires forall u :: u in gray ==> Reaches(adj, u, v)
    requires BlackClosed(adj, post + [v], visited)
    requires ExitsViaGray(adj, post, gray + {v})
    requires x in post + [v] && y !in post + [v] && Reaches(adj, x, y)
    ensures z in gray && Strong(adj, x, z)
  {
    var black := set u | u in post + [v];
    var a, c := LeaveSet(adj, black, x, y);
    assert c in visited;
    assert c in gray;
    if x == v {
      z := c;
    } else {
      assert x in post && c !in post && Leads(adj, x, c);
      var g :| g in gray + {v} && Strong(adj, x, g);
      if g in gray {
        z := g;
      } else {
        z := c;
        ReachesTrans(adj, c, v, x);
      }
    }
  }

  lemma FinishExits(adj: AdjMap, post: seq<Vertex>, visited: set<Vertex>, gray: set<Vertex>, v: Vertex)
    requires forall u :: u in visited <==> u in post || u in gray || u == v
    requires forall u :: u in gray ==> Reaches(adj, u, v)
    requires BlackClosed(adj, post + [v], visited)
    requires ExitsViaGray(adj, post, gray + {v})
    ensures ExitsViaGray(adj, post + [v], gray)
  {
    forall x, y | x in post + [v] && y !in post + [v] && Leads(adj, x, y)
      ensures exists z :: z in gray && Strong(adj, x, z)
    {
      var z := ExitWitness(adj, post, visited, gray, v, x, y);
    }
  }

  lemma FinishOrdered(adj: AdjMap, post: seq<Vertex>, gray: set<Vertex>, v: Vertex)
    requires v !in post
    requires ExitsViaGray(adj, post, gray + {v}) && FinishOrder(adj, post, gray + {v})
    ensures FinishOrder(adj, post + [v], gray)
  {
    var post' := post + [v];
    var n := |post|;
    forall i, j | 0 <= i < |post'| && 0 <= j < |post'| && Leads(adj, post'[i], post'[j])
      ensures (exists k :: j <= k < |post'| && Strong(adj, post'[i], post'[k])) ||
              (exists z :: z in gray && Strong(adj, post'[i], z))
    {
      assert post'[n] == v;
      if i == n {
        StrongRefl(adj, v);
        assert j <= n && Strong(adj, post'[i], post'[n]);
      } else if j == n {
        assert post'[i] == post[i] && post[i] in post && Leads(adj, post[i], v);
        var g :| g in gray + {v} && Strong(adj, post[i], g);
        if g == v {
          assert Strong(adj, post'[i], post'[n]);
        } else {
          assert g in gray;
        }
      } else {
        assert post'[i] == post[i] && post'[j] == post[j] && Leads(adj, post[i], post[j]);
        if exists k :: j <= k < n && Strong(adj, post[i], post[k]) {
          var k :| j <= k < n && Strong(adj, post[i], post[k]);
          assert post'[k] == post[k];
        } else {
          var g :| g in gray + {v} && Strong(adj, post[i], g);
          if g == v {
            assert Strong(adj, post'[i], post'[n]);
          } else {
            assert g in gray;
          }
        }
      }
    }
  }

  /** The recursive `dfs(v, visitado, pilha)` of algoritmos.py:35-40. The
      vertices it visits anew are exactly the ones it appends to `post`, `v`
      last; the three colour invariants survive, with the same gray vertices
      before and after. Every gray vertex at the call reaches `v`: gray
      vertices are the searches still running, and `v` descends from them. */
  method Dfs(g: GraphData, v: Vertex, visited0: set<Vertex>, post0: seq<Vertex>)
    returns (visited: set<Vertex>, post: seq<Vertex>)
    requires Closed(g.adj, g.vertices)
    requires v in g.vertices && v !in visited0 && visited0 <= g.vertices
    requires (forall x :: x in post0 ==> x in visited0) && Distinct(post0)
    requires forall z :: z in Gray(visited0, post0) ==> Reaches(g.adj, z, v)
    requires BlackClosed(g.adj, post0, visited0)
    requires ExitsViaGray(g.adj, post0, Gray(visited0, post0))
    requires FinishOrder(g.adj, post0, Gray(visited0, post0))
    ensures visited0 + {v} <= visited <= g.vertices
    ensures post0 < post && post[|post| - 1] == v
    ensures forall x :: x in post <==> x in post0 || (x in visited && x !in visited0)
    ensures Distinct(post)
    ensures Gray(visited, post) == Gray(visited0, post0)
    ensures BlackClosed(g.adj, post, visited)
    ensures ExitsViaGray(g.adj, post, Gray(visited0, post0))
    ensures FinishOrder(g.adj, post, Gray(visited0, post0))
    decreases g.vertices - visited0, 2
  {
    ghost var gray := Gray(visited0, post0);
    GrayGrows(g.adj, post0, gray, v);
    assert Gray(visited0 + {v}, post0) == gray + {v};
    visited, post := VisitNbrs(g, v, gray, visited0, visited0 + {v}, post0);
    assert forall u :: u in visited <==> u in post || u in gray || u == v by {
      forall u | u in visited ensures u in post || u in gray || u == v {
        if u !in post { assert u in Gray(visited, post); }
      }
    }
    FinishClosed(g.adj, post, visited, v);
    FinishExits(g.adj, post, visited, gray, v);
    FinishOrdered(g.adj, post, gray, v);
    Traversal.DistinctAppend(post, [v]);
    post := post + [v];
    assert Gray(visited, post) == gray;
  }

  /** The `for viz, _ in grafo.lista_adj.get(v, [])` loop of algoritmos.py:37-39,
      run with `v` gray: a search from each neighbour still unvisited. Every
      neighbour of `v` ends up visited, the newly visited vertices are the ones
      appended to `post`, and the colour invariants hold throughout. */
  method VisitNbrs(g: GraphData, v: Vertex, ghost gray: set<Vertex>, ghost visited0: set<Vertex>,
                   visited1: set<Vertex>, post1: seq<Vertex>)
    returns (visited: set<Vertex>, post: seq<Vertex>)
    requires Closed(g.adj, g.vertices)
    requires v in g.vertices && v !in visited0 && visited0 + {v} <= visited1 <= g.vertices
    requires v !in gray && forall z :: z in gray ==> Reaches(g.adj, z, v)
    requires (forall x :: x in post1 ==> x in visited1) && Distinct(post1)
    requires Gray(visited1, post1) == gray + {v}
    requires BlackClosed(g.adj, post1, visited1)
    requires ExitsViaGray(g.adj, post1, gray + {v}) && FinishOrder(g.adj, post1, gray + {v})
    ensures visited1 <= visited <= g.vertices
    ensures post1 <= post
    ensures forall x :: x in post <==> x in post1 || (x in visited && x !in visited1)
    ensures Distinct(post)
    ensures Gray(visited, post) == gray + {v}
    ensures BlackClosed(g.adj, post, visited)
    ensures ExitsViaGray(g.adj, post, gray + {v}) && FinishOrder(g.adj, post, gray + {v})
    ensures Nbrs(AdjOf(g.adj, v)) <= visited
    decreases g.vertices - visited0, 1
  {
    visited, post := visited1, post1;
    var l := AdjOf(g.adj, v);
    var j := 0;
    while j < |l|
      invariant 0 <= j <= |l|
      invariant visited1 <= visited <= g.vertices
      invariant post1 <= post
      invariant forall x :: x in post <==> x in post1 || (x in visited && x !in visited1)
      invariant Distinct(post)
      invariant Gray(visited, post) == gray + {v}
      invariant BlackClosed(g.adj, post, visited)
      invariant ExitsViaGray(g.adj, post, gray + {v}) && FinishOrder(g.adj, post, gray + {v})
      invariant forall k :: 0 <= k < j ==> l[k].nbr in visited
    {
      assert l[j] in l;
      visited, post := VisitNbr(g, v, l[j].nbr, gray, visited0, visited, post);
      j := j + 1;
    }
    forall y | y in Nbrs(l) ensures y in visited {
      var e :| e in l && e.nbr == y;
      var k :| 0 <= k < |l| && l[k] == e;
    }
  }

  /** One turn of that loop: `if viz not in visitado: dfs(viz, visitado, pilha)`. */
  method VisitNbr(g: GraphData, v: Vertex, w: Vertex, ghost gray: set<Vertex>, ghost visited0: set<Vertex>,
                  visited1: set<Vertex>, post1: seq<Vertex>)
    returns (visited: set<Vertex>, post: seq<Vertex>)
    requires Closed(g.adj, g.vertices) && w in Nbrs(AdjOf(g.adj, v))
    requires v in g.vertices && v !in visited0 && visited0 + {v} <= visited1 <= g.vertices
    requires forall z :: z in gray ==> Reaches(g.adj, z, v)
    requires (forall x :: x in post1 ==> x in visited1) && Distinct(post1)
    requires Gray(visited1, post1) == gray + {v}
    requires BlackClosed(g.adj, post1, visited1)
    requires ExitsViaGray(g.adj, post1, gray + {v}) && FinishOrder(g.adj, post1, gray + {v})
    ensures visited1 + {w} <= visited <= g.vertices
    ensures post1 <= post
    ensures forall x :: x in post <==> x in post1 || (x in visited && x !in visited1)
    ensures Distinct(post)
    ensures Gray(visited, post) == gray + {v}
    ensures BlackClosed(g.adj, post, visited)
    ensures ExitsViaGray(g.adj, post, gray + {v}) && FinishOrder(g.adj, post, gray + {v})
    decreases g.vertices - visited0, 0
  {
    visited, post := visited1, post1;
    if w !in visited {
      ChainToChild(g.adj, gray, v, w);
      visited, post := Dfs(g, w, visited, post);
    }
  }

  /** The searches still running when `v` visits its neighbour `w` all reach `w`. */
  lemma ChainToChild(adj: AdjMap, gray: set<Vertex>, v: Vertex, w: Vertex)
    requires forall z :: z in gray ==> Reaches(adj, z, v)
    requires w in Nbrs(AdjOf(adj, v))
    ensures forall z :: z in gray + {v} ==> Reaches(adj, z, w)
  {
    ReachesEdge(adj, v, w);
    forall z | z in gray ensures Reaches(adj, z, w) {
      ReachesTrans(adj, z, v, w);
    }
  }

  /** With no gray vertex left, `FinishOrder` is `DfsOrdered`. */
  lemma FinishOrderDone(adj: AdjMap, post: seq<Vertex>)
    requires FinishOrder(adj, post, {})
    ensures DfsOrdered(adj, post)
  {
  }

  /** The first pass (algoritmos.py:49-56): a search from every vertex still
      unvisited, in the iteration order `order` of `grafo.vertices`. Every
      vertex is finished once, and whatever a vertex reaches finished no later
      than some member of its strong component. */
  method FinishingOrder(g: GraphData, order: seq<Vertex>) returns (post: seq<Vertex>)
    requires Closed(g.adj, g.vertices) && Enumerates(order, g.vertices)
    ensures Enumerates(post, g.vertices)
    ensures DfsOrdered(g.adj, post)
  {
    var visited: set<Vertex> := {};
    post := [];
    var i := 0;
    while i < |order|
      invariant 0 <= i <= |order|
      invariant visited <= g.vertices
      invariant forall x :: x in post <==> x in visited
      invariant Distinct(post)
      invariant forall k :: 0 <= k < i ==> order[k] in visited
      invariant BlackClosed(g.adj, post, visited)
      invariant ExitsViaGray(g.adj, post, {}) && FinishOrder(g.adj, post, {})
    {
      var v := order[i];
      if v !in visited {
        assert Gray(visited, post) == {};
        visited, post := Dfs(g, v, visited, post);
      }
      i := i + 1;
    }
    FinishOrderDone(g.adj, post);
  }

  /** `a` lists `x` with weight `w` exactly when `x` lists `a` with weight `w` in
      `adj`: the transposed adjacency. */
  ghost predicate TransposeOf(t: AdjMap, adj: AdjMap)
  {
    forall a, x, w :: Entry(x, w) in AdjOf(t, a) <==> Entry(a, w) in AdjOf(adj, x)
  }

  /** The inner loop of algoritmos.py:62-63: `transposto[v].append((u, peso))`
      for every entry `(v, peso)` of `l`, the list of `u`. */
  method AddReversed(t0: AdjMap, u: Vertex, l: seq<Entry>) returns (t: AdjMap)
    requires forall a :: a in t0 ==> t0[a] != []
    ensures forall a :: a in t ==> t[a] != []
    ensures forall a, x, w :: Entry(x, w) in AdjOf(t, a) <==>
      Entry(x, w) in AdjOf(t0, a) || (x == u && Entry(a, w) in l)
  {
    t := t0;
    var j := 0;
    while j < |l|
      invariant 0 <= j <= |l|
      invariant forall a :: a in t ==> t[a] != []
      invariant forall a, x, w :: Entry(x, w) in AdjOf(t, a) <==>
        Entry(x, w) in AdjOf(t0, a) || (x == u && Entry(a, w) in l[..j])
    {
      var e := l[j];
      assert l[..j + 1] == l[..j] + [e];
      t := t[e.nbr := AdjOf(t, e.nbr) + [Entry(u, e.weight)]];
      j := j + 1;
    }
    assert l[..j] == l;
  }

  /** `transposto` (algoritmos.py:60-63), visiting the keys of `lista_adj` in
      the order `keys`. */
  method Transpose(adj: AdjMap, keys: seq<Vertex>) returns (t: AdjMap)
    requires Enumerates(keys, adj.Keys)
    ensures TransposeOf(t, adj)
    ensures forall a :: a in t ==> t[a] != []
  {
    t := map[];
    var i := 0;
    while i < |keys|
      invariant 0 <= i <= |keys|
      invariant forall a :: a in t ==> t[a] != []
      invariant forall a, x, w :: Entry(x, w) in AdjOf(t, a) <==>
        x in keys[..i] && Entry(a, w) in AdjOf(adj, x)
    {
      var u := keys[i];
      assert keys[..i + 1] == keys[..i] + [u];
      t := AddReversed(t, u, adj[u]);
      i := i + 1;
    }
    assert keys[..i] == keys;
  }

  /** Being a neighbour in the transposed adjacency is being a neighbour the
      other way round. */
  lemma TransposeNbrs(t: AdjMap, adj: AdjMap, a: Vertex, b: Vertex)
    requires TransposeOf(t, adj)
    ensures b in Nbrs(AdjOf(t, a)) <==> a in Nbrs(AdjOf(adj, b))
  {
    if b in Nbrs(AdjOf(t, a)) {
      var w := NbrEntry(AdjOf(t, a), b);
      assert Entry(a, w) in AdjOf(adj, b);
    }
    if a in Nbrs(AdjOf(adj, b)) {
      var w := NbrEntry(AdjOf(adj, b), a);
      assert Entry(b, w) in AdjOf(t, a);
    }
  }

  /** The transposed adjacency of a closed store is closed. */
  lemma TransposeClosed(t: AdjMap, adj: AdjMap, vs: set<Vertex>)
    requires TransposeOf(t, adj) && Closed(adj, vs) && forall a :: a in t ==> t[a] != []
    ensures Closed(t, vs)
  {
    forall a | a in t ensures a in vs && Nbrs(t[a]) <= vs {
      var e := t[a][0];
      assert e in AdjOf(t, a);
      assert Entry(a, e.weight) in AdjOf(adj, e.nbr);
      forall x | x in Nbrs(t[a]) ensures x in vs {
        var w := NbrEntry(t[a], x);
        assert Entry(a, w) in AdjOf(adj, x);
      }
    }
  }

  /** A route in the transposed adjacency is a route backwards in `adj`. */
  lemma ReachesTransposed(t: AdjMap, adj: AdjMap, a: Vertex, b: Vertex)
    requires TransposeOf(t, adj) && Reaches(t, a, b)
    ensures Reaches(adj, b, a)
  {
    var p :| IsPath(t, p) && p[0] == a && p[|p| - 1] == b;
    var n := |p|;
    var q := seq(n, i requires 0 <= i < n => p[n - 1 - i]);
    forall i | 0 <= i < n - 1 ensures q[i + 1] in Nbrs(AdjOf(adj, q[i])) {
      assert p[n - 1 - i] in Nbrs(AdjOf(t, p[n - 2 - i]));
      TransposeNbrs(t, adj, p[n - 2 - i], p[n - 1 - i]);
    }
    assert IsPath(adj, q) && q[0] == b && q[n - 1] == a;
  }

  /** The recursive `dfs_transposto(v, visitado, componente, transposto)` of
      algoritmos.py:42-47: `v` comes first among the vertices it appends, which
      are exactly the ones it visits anew; all of them are reachable from `v`
      in `t`, and each of their neighbours in `t` ends up visited. */
  method DfsTransposed(t: AdjMap, vs: set<Vertex>, v: Vertex, visited0: set<Vertex>, comp0: seq<Vertex>)
    returns (visited: set<Vertex>, comp: seq<Vertex>)
    requires Closed(t, vs) && v in vs && v !in visited0 && visited0 <= vs
    requires (forall x :: x in comp0 ==> x in visited0) && Distinct(comp0)
    ensures visited0 + {v} <= visited <= vs
    ensures comp0 + [v] <= comp
    ensures forall x :: x in comp <==> x in comp0 || (x in visited && x !in visited0)
    ensures Distinct(comp)
    ensures forall x :: x in visited && x !in visited0 ==> Reaches(t, v, x)
    ensures forall x, y :: x in visited && x !in visited0 && y in Nbrs(AdjOf(t, x)) ==> y in visited
    decreases vs - visited0
  {
    visited := visited0 + {v};
    Traversal.DistinctAppend(comp0, [v]);
    comp := comp0 + [v];
    ReachesRefl(t, v);
    var l := AdjOf(t, v);
    var j := 0;
    while j < |l|
      invariant 0 <= j <= |l|
      invariant visited0 + {v} <= visited <= vs
      invariant comp0 + [v] <= comp
      invariant forall x :: x in comp <==> x in comp0 || (x in visited && x !in visited0)
      invariant Distinct(comp)
      invariant forall x :: x in visited && x !in visited0 ==> Reaches(t, v, x)
      invariant forall x, y :: x in visited && x !in visited0 && x != v && y in Nbrs(AdjOf(t, x)) ==> y in visited
      invariant forall k :: 0 <= k < j ==> l[k].nbr in visited
    {
      var w := l[j].nbr;
      if w !in visited {
        assert l[j] in l;
        ghost var before := visited;
        visited, comp := DfsTransposed(t, vs, w, visited, comp);
        forall x | x in visited && x !in before ensures Reaches(t, v, x) {
          ReachesEdge(t, v, w);
          ReachesTrans(t, v, w, x);
        }
      }
      j := j + 1;
    }
    forall y | y in Nbrs(l) ensures y in visited {
      var e :| e in l && e.nbr == y;
      var k :| 0 <= k < |l| && l[k] == e;
    }
  }

  /** No strong component straddles the border of `s`. */
  ghost predicate StrongClosed(adj: AdjMap, s: set<Vertex>)
  {
    forall x, y {:trigger Strong(adj, x, y)} :: x in s && Strong(adj, x, y) ==> y in s
  }

  /** Each list is exactly the strong component of its first vertex. */
  ghost predicate SccList(adj: AdjMap, comps: seq<seq<Vertex>>)
  {
    && (forall k :: 0 <= k < |comps| ==> comps[k] != [])
    && (forall k, y :: 0 <= k < |comps| ==> (y in comps[k] <==> Strong(adj, comps[k][0], y)))
  }

  /** Every vertex on a path between two members of a strong component belongs to it. */
  lemma OnPathStrong(adj: AdjMap, p: seq<Vertex>, i: nat)
    requires IsPath(adj, p) && i < |p| && Reaches(adj, p[|p| - 1], p[0])
    ensures Strong(adj, p[|p| - 1], p[i])
  {
    PathReaches(adj, p, 0, i);
    PathReaches(adj, p, i, |p| - 1);
    ReachesTrans(adj, p[|p| - 1], p[0], p[i]);
  }

  /** The second pass, one popped vertex `r` (algoritmos.py:67-72): when `r` is
      still unvisited, the vertices the transposed search visits anew form the
      strong component of `r`. */
  lemma ComponentIsScc(adj: AdjMap, t: AdjMap, vs: set<Vertex>, post: seq<Vertex>, m: nat,
                       visited0: set<Vertex>, visited: set<Vertex>, comp: seq<Vertex>)
    requires TransposeOf(t, adj) && DfsOrdered(adj, post) && Enumerates(post, vs)
    requires 0 < m <= |post| && post[m - 1] !in visited0
    requires forall k :: m <= k < |post| ==> post[k] in visited0
    requires StrongClosed(adj, visited0) && visited <= vs
    requires post[m - 1] in comp
    requires forall x :: x in comp <==> x in visited && x !in visited0
    requires forall x :: x in visited && x !in visited0 ==> Reaches(t, post[m - 1], x)
    requires forall x, y :: x in visited && x !in visited0 && y in Nbrs(AdjOf(t, x)) ==> y in visited
    ensures forall y :: y in comp <==> Strong(adj, post[m - 1], y)
  {
    var r := post[m - 1];
    forall y | y in comp ensures Strong(adj, r, y) {
      ReachesTransposed(t, adj, r, y);
      var i :| 0 <= i < |post| && post[i] == y;
      CompInScc(adj, post, m, visited0, i);
    }
    forall y | Strong(adj, r, y) ensures y in comp {
      StrongInComp(adj, t, r, y, visited0, visited, comp);
    }
  }

  /** A vertex that reaches `post[m - 1]` and is still unvisited belongs to its
      strong component: the member of its own strong component that finished no
      earlier than `post[m - 1]` can only be `post[m - 1]` itself. */
  lemma CompInScc(adj: AdjMap, post: seq<Vertex>, m: nat, visited0: set<Vertex>, i: nat)
    requires DfsOrdered(adj, post) && 0 < m <= |post| && i < |post|
    requires post[i] !in visited0
    requires forall k :: m <= k < |post| ==> post[k] in visited0
    requires StrongClosed(adj, visited0)
    requires Reaches(adj, post[i], post[m - 1])
    ensures Strong(adj, post[m - 1], post[i])
  {
    assert Leads(adj, post[i], post[m - 1]);
    LaterNotStrong(adj, post, m, visited0, post[i]);
    var k :| m - 1 <= k < |post| && Strong(adj, post[i], post[k]);
    assert k == m - 1;
  }

  /** Nothing that finished after `post[m - 1]` shares a strong component with
      an unvisited vertex, once the visited set is a union of strong components. */
  lemma LaterNotStrong(adj: AdjMap, post: seq<Vertex>, m: nat, visited0: set<Vertex>, y: Vertex)
    requires forall k :: m <= k < |post| ==> post[k] in visited0
    requires StrongClosed(adj, visited0) && y !in visited0
    ensures forall k :: m <= k < |post| ==> !Strong(adj, y, post[k])
  {
    forall k | m <= k < |post| ensures !Strong(adj, y, post[k]) {
      if Strong(adj, y, post[k]) {
        assert Strong(adj, post[k], y);
      }
    }
  }

  lemma StrongInComp(adj: AdjMap, t: AdjMap, r: Vertex, y: Vertex,
                     visited0: set<Vertex>, visited: set<Vertex>, comp: seq<Vertex>)
    requires TransposeOf(t, adj) && Strong(adj, r, y)
    requires r !in visited0 && r in comp && StrongClosed(adj, visited0)
    requires forall x :: x in comp <==> x in visited && x !in visited0
    requires forall x, z :: x in visited && x !in visited0 && z in Nbrs(AdjOf(t, x)) ==> z in visited
    ensures y in comp
  {
    var p :| IsPath(adj, p) && p[0] == y && p[|p| - 1] == r;
    var i := |p| - 1;
    while i > 0
      invariant 0 <= i < |p| && p[i] in comp
    {
      assert p[i] in Nbrs(AdjOf(adj, p[i - 1]));
      TransposeNbrs(t, adj, p[i], p[i - 1]);
      OnPathStrong(adj, p, i - 1);
      assert Strong(adj, p[i - 1], r);
      i := i - 1;
    }
  }

  /** Appending the strong component of a popped vertex keeps the second
      pass's invariants. */
  lemma AddScc(adj: AdjMap, comps: seq<seq<Vertex>>, comp: seq<Vertex>, visited: set<Vertex>, visited': set<Vertex>)
    requires forall x :: x in Flatten(comps) <==> x in visited
    requires Distinct(Flatten(comps)) && Distinct(comp) && comp != []
    requires forall x :: x in comp <==> x in visited' && x !in visited
    requires visited <= visited'
    requires SccList(adj, comps) && StrongClosed(adj, visited)
    requires forall y :: y in comp <==> Strong(adj, comp[0], y)
    ensures var comps' := comps + [comp];
      && (forall x :: x in Flatten(comps') <==> x in visited')
      && Distinct(Flatten(comps'))
      && SccList(adj, comps') && StrongClosed(adj, visited')
  {
    var comps' := comps + [comp];
    FlattenSnoc(comps, comp);
    Traversal.DistinctAppend(Flatten(comps), comp);
    forall k | 0 <= k < |comps'| ensures comps'[k] != [] {
      if k < |comps| { assert comps'[k] == comps[k]; }
    }
    forall k, y | 0 <= k < |comps'| ensures y in comps'[k] <==> Strong(adj, comps'[k][0], y) {
      if k < |comps| {
        assert comps'[k] == comps[k];
        assert y in comps[k] <==> Strong(adj, comps[k][0], y);
      }
    }
    forall x, y | x in visited' && Strong(adj, x, y) ensures y in visited' {
      if x !in visited {
        StrongTrans(adj, comp[0], x, y);
      }
    }
  }

  /** `componentes_fortemente_conexas(grafo)` (algoritmos.py:32-75), with the
      iteration order of `grafo.vertices` given as `order` and that of the keys
      of `lista_adj` as `keys`: the lists partition the vertices, and each one
      is exactly the strong component of its first vertex. */
  method StronglyConnectedComponents(g: GraphData, order: seq<Vertex>, keys: seq<Vertex>)
    returns (comps: seq<seq<Vertex>>)
    requires Closed(g.adj, g.vertices) && Enumerates(order, g.vertices) && Enumerates(keys, g.adj.Keys)
    ensures Distinct(Flatten(comps))
    ensures forall x :: x in Flatten(comps) <==> x in g.vertices
    ensures SccList(g.adj, comps)
  {
    var post := FinishingOrder(g, order);
    var t := Transpose(g.adj, keys);
    TransposeClosed(t, g.adj, g.vertices);
    var visited: set<Vertex> := {};
    comps := [];
    var m := |post|;
    while m > 0
      invariant 0 <= m <= |post|
      invariant visited <= g.vertices
      invariant forall x :: x in Flatten(comps) <==> x in visited
      invariant Distinct(Flatten(comps))
      invariant forall k :: m <= k < |post| ==> post[k] in visited
      invariant StrongClosed(g.adj, visited)
      invariant SccList(g.adj, comps)
    {
      visited, comps := PopVertex(g.adj, t, g.vertices, post, m, visited, comps);
      m := m - 1;
    }
  }

  /** One turn of the `while pilha` loop of algoritmos.py:67-72: pop `post[m - 1]`
      and, when it is still unvisited, append the component its transposed
      search collects, which is its strong component. */
  method PopVertex(adj: AdjMap, t: AdjMap, vs: set<Vertex>, post: seq<Vertex>, m: nat,
                   visited0: set<Vertex>, comps0: seq<seq<Vertex>>)
    returns (visited: set<Vertex>, comps: seq<seq<Vertex>>)
    requires TransposeOf(t, adj) && Closed(t, vs) && DfsOrdered(adj, post) && Enumerates(post, vs)
    requires 0 < m <= |post| && visited0 <= vs
    requires forall x :: x in Flatten(comps0) <==> x in visited0
    requires Distinct(Flatten(comps0))
    requires forall k :: m <= k < |post| ==> post[k] in visited0
    requires StrongClosed(adj, visited0) && SccList(adj, comps0)
    ensures visited <= vs
    ensures forall x :: x in Flatten(comps) <==> x in visited
    ensures Distinct(Flatten(comps))
    ensures forall k :: m - 1 <= k < |post| ==> post[k] in visited
    ensures StrongClosed(adj, visited) && SccList(adj, comps)
  {
    if post[m - 1] !in visited0 {
      visited, comps := CollectScc(adj, t, vs, post, m, visited0, comps0);
    } else {
      visited, comps := visited0, comps0;
    }
  }

  /** The popped `r = post[m - 1]` is unvisited (algoritmos.py:69-72): the
      transposed search from `r` collects a new list, appended to the
      components, which is the strong component of `r`. */
  method CollectScc(adj: AdjMap, t: AdjMap, vs: set<Vertex>, post: seq<Vertex>, m: nat,
                    visited0: set<Vertex>, comps0: seq<seq<Vertex>>)
    returns (visited: set<Vertex>, comps: seq<seq<Vertex>>)
    requires TransposeOf(t, adj) && Closed(t, vs) && DfsOrdered(adj, post) && Enumerates(post, vs)
    requires 0 < m <= |post| && visited0 <= vs && post[m - 1] !in visited0
    requires forall x :: x in Flatten(comps0) <==> x in visited0
    requires Distinct(Flatten(comps0))
    requires forall k :: m <= k < |post| ==> post[k] in visited0
    requires StrongClosed(adj, visited0) && SccList(adj, comps0)
    ensures visited0 + {post[m - 1]} <= visited <= vs
    ensures comps0 < comps && |comps| == |comps0| + 1
    ensures forall x :: x in Flatten(comps) <==> x in visited
    ensures Distinct(Flatten(comps))
    ensures StrongClosed(adj, visited) && SccList(adj, comps)
  {
    var r := post[m - 1];
    var comp;
    visited, comp := DfsTransposed(t, vs, r, visited0, []);
    ComponentIsScc(adj, t, vs, post, m, visited0, visited, comp);
    AddScc(adj, comps0, comp, visited0, visited);
    comps := comps0 + [comp];
  }
}
