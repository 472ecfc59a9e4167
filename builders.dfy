/** The two graph builders of grafo.py: the undirected co-actor graph
    (`construir_grafo_atores`, grafo.py:121-139) and the directed
    actor-to-director graph (`construir_grafo_direcional`, grafo.py:141-161).

    Each builder is a nested loop that calls `adicionar_aresta(x, y, 1)` once
    per generated pair; `ActorPairs` and `DirectorPairs` list those pairs in
    call order, and `AddEdges` is the store after the calls. */
module Builders {
  import opened Adjacency
  import opened GraphStore

  type Pair = (Vertex, Vertex)

  /** The store after `adicionar_aresta(x, y, 1)` for each pair, in order. */
  function AddEdges(g: GraphData, ps: seq<Pair>): GraphData
  {
    if ps == [] then g
    else
      var last := ps[|ps| - 1];
      AddEdgeSpec(AddEdges(g, ps[..|ps| - 1]), last.0, last.1, 1)
  }

  /** Number of pairs equal to `(a, b)`. */
  function CountOrdered(ps: seq<Pair>, a: Vertex, b: Vertex): nat
  {
    if ps == [] then 0
    else CountOrdered(ps[..|ps| - 1], a, b) + (if ps[|ps| - 1] == (a, b) then 1 else 0)
  }

  /** Number of pairs equal to `(a, b)` or to `(b, a)`. */
  function CountUnordered(ps: seq<Pair>, a: Vertex, b: Vertex): nat
  {
    if ps == [] then 0
    else CountUnordered(ps[..|ps| - 1], a, b) + (if ps[|ps| - 1] in {(a, b), (b, a)} then 1 else 0)
  }

  /** The names that occur in some pair. */
  function Ends(ps: seq<Pair>): set<Vertex>
  {
    (set q | q in ps :: q.0) + (set q | q in ps :: q.1)
  }

  lemma AddEdgesSnoc(g: GraphData, ps: seq<Pair>, q: Pair)
    ensures AddEdges(g, ps + [q]) == AddEdgeSpec(AddEdges(g, ps), q.0, q.1, 1)
  {
    assert (ps + [q])[..|ps|] == ps;
  }

  lemma PrefixStep(a: seq<Pair>, x: seq<Pair>, j: nat, q: Pair)
    requires j < |x| && x[j] == q
    ensures a + x[..j + 1] == a + x[..j] + [q]
  {
    assert x[..j + 1] == x[..j] + [x[j]];
  }

  lemma PrefixEnds(a: seq<Pair>, x: seq<Pair>)
    ensures a + x[..0] == a && a + x[..|x|] == a + x
  {
    assert x[..0] == [] && x[..|x|] == x;
  }

  /** The store invariant holds after any sequence of calls. */
  lemma {:induction false} AddEdgesWf(g: GraphData, ps: seq<Pair>)
    requires Wf(g)
    ensures Wf(AddEdges(g, ps)) && AddEdges(g, ps).directed == g.directed
  {
    if ps != [] {
      var init := ps[..|ps| - 1];
      var last := ps[|ps| - 1];
      AddEdgesWf(g, init);
      AddEdgePreservesWf(AddEdges(g, init), last.0, last.1, 1);
    }
  }

  lemma EndsSnoc(ps: seq<Pair>, q: Pair)
    ensures Ends(ps + [q]) == Ends(ps) + {q.0, q.1}
  {
    var r := ps + [q];
    assert q in r;
    forall x | x in Ends(ps) ensures x in Ends(r) {
      var q' :| q' in ps && (q'.0 == x || q'.1 == x);
      assert q' in r;
    }
    forall x | x in Ends(r) ensures x in Ends(ps) + {q.0, q.1} {
      var q' :| q' in r && (q'.0 == x || q'.1 == x);
      if q' != q { assert q' in ps; }
    }
  }

  /** Both endpoints of every call become vertices (grafo.py:81), and nothing else does. */
  lemma {:induction false} AddEdgesVertices(g: GraphData, ps: seq<Pair>)
    ensures AddEdges(g, ps).vertices == g.vertices + Ends(ps)
  {
    if ps != [] {
      var init := ps[..|ps| - 1];
      var last := ps[|ps| - 1];
      AddEdgesVertices(g, init);
      assert ps == init + [last];
      EndsSnoc(init, last);
    }
  }

  /** After the calls, `y` is a neighbour of `x` exactly when it was before, or
      some call was on `(x, y)` or, undirected, on `(y, x)`. */
  lemma {:induction false} AddEdgesNbrs(g: GraphData, ps: seq<Pair>, x: Vertex, y: Vertex)
    requires Wf(g)
    ensures y in Nbrs(AdjOf(AddEdges(g, ps).adj, x)) <==>
      y in Nbrs(AdjOf(g.adj, x)) || (x, y) in ps || (!g.directed && (y, x) in ps)
  {
    if ps != [] {
      var init := ps[..|ps| - 1];
      var last := ps[|ps| - 1];
      AddEdgesNbrs(g, init, x, y);
      AddEdgesWf(g, init);
      NbrsStep(AddEdges(g, init), last, x, y);
      SnocMember(ps, (x, y));
      SnocMember(ps, (y, x));
    }
  }

  lemma SnocMember(ps: seq<Pair>, q: Pair)
    requires ps != []
    ensures q in ps <==> q in ps[..|ps| - 1] || q == ps[|ps| - 1]
  {
    assert ps == ps[..|ps| - 1] + [ps[|ps| - 1]];
  }

  lemma NbrsStep(h: GraphData, q: Pair, x: Vertex, y: Vertex)
    requires Wf(h)
    ensures y in Nbrs(AdjOf(AddEdgeSpec(h, q.0, q.1, 1).adj, x)) <==>
      y in Nbrs(AdjOf(h.adj, x)) || q == (x, y) || (!h.directed && q == (y, x))
  {
    AddEdgeNbrs(h, q.0, q.1, 1, x);
  }

  /** After the calls, the weight from `a` towards `b` grew by the number of
      calls on `(a, b)` or, undirected with `a != b`, on `(a, b)` or `(b, a)`. */
  lemma {:induction false} AddEdgesWeight(g: GraphData, ps: seq<Pair>, a: Vertex, b: Vertex)
    requires Wf(g) && (g.directed || a != b)
    ensures WeightOf(AdjOf(AddEdges(g, ps).adj, a), b) ==
      WeightOf(AdjOf(g.adj, a), b) +
      (if g.directed then CountOrdered(ps, a, b) else CountUnordered(ps, a, b))
  {
    if ps != [] {
      var init := ps[..|ps| - 1];
      var last := ps[|ps| - 1];
      var h := AddEdges(g, init);
      AddEdgesWeight(g, init, a, b);
      AddEdgesWf(g, init);
      AddEdgeWeight(h, last.0, last.1, 1, a, b);
    }
  }

  // ---------------------------------------------------------------------
  // The co-actor graph

  /** The calls `adicionar_aresta(x, y, 1)` for each `y` of `ys`, in order:
      the innermost loops of both builders (grafo.py:136-137, grafo.py:158-159). */
  function Fan(x: Vertex, ys: seq<Vertex>): (r: seq<Pair>)
    ensures |r| == |ys|
    ensures forall j :: 0 <= j < |r| ==> r[j] == (x, ys[j])
  {
    seq(|ys|, j requires 0 <= j < |ys| => (x, ys[j]))
  }

  /** The pairs of row `i` (grafo.py:136-137): `c[i]` with every later entry. */
  function Row(c: seq<Vertex>, i: nat): seq<Pair>
    requires i < |c|
  {
    Fan(c[i], c[i + 1..])
  }

  /** The pairs of the rows before `i`. */
  function RowsBefore(c: seq<Vertex>, i: nat): seq<Pair>
    requires i <= |c|
  {
    if i == 0 then [] else RowsBefore(c, i - 1) + Row(c, i - 1)
  }

  /** The pairs one cast contributes: every `(c[i], c[j])` with `i < j`. */
  function CastPairs(c: seq<Vertex>): seq<Pair>
  {
    RowsBefore(c, |c|)
  }

  /** The pairs of grafo.py:134-137, cast by cast. */
  function ActorPairs(casts: seq<seq<Vertex>>): seq<Pair>
  {
    if casts == [] then []
    else ActorPairs(casts[..|casts| - 1]) + CastPairs(casts[|casts| - 1])
  }

  ghost predicate IndexPair(c: seq<Vertex>, i: int, j: int, x: Vertex, y: Vertex)
  {
    0 <= i < j < |c| && c[i] == x && c[j] == y
  }

  lemma {:induction false} RowsBeforeMember(c: seq<Vertex>, n: nat, x: Vertex, y: Vertex)
    requires n <= |c|
    ensures (x, y) in RowsBefore(c, n) <==> exists i, j :: i < n && IndexPair(c, i, j, x, y)
  {
    if n > 0 {
      RowsBeforeMember(c, n - 1, x, y);
      var r := Row(c, n - 1);
      if (x, y) in r {
        var k :| 0 <= k < |r| && r[k] == (x, y);
        assert IndexPair(c, n - 1, n + k, x, y);
      }
      if exists i, j :: i < n && IndexPair(c, i, j, x, y) {
        var i, j :| i < n && IndexPair(c, i, j, x, y);
        if i == n - 1 {
          assert r[j - n] == (x, y);
        }
      }
    }
  }

  /** A cast contributes exactly its index pairs `i < j`. */
  lemma CastPairsMember(c: seq<Vertex>, x: Vertex, y: Vertex)
    ensures (x, y) in CastPairs(c) <==> exists i, j :: IndexPair(c, i, j, x, y)
  {
    RowsBeforeMember(c, |c|, x, y);
  }

  /** The co-actor pairs are exactly the index pairs `i < j` of some cast. */
  lemma {:induction false} ActorPairsMember(casts: seq<seq<Vertex>>, x: Vertex, y: Vertex)
    ensures (x, y) in ActorPairs(casts) <==>
      exists k, i, j :: 0 <= k < |casts| && IndexPair(casts[k], i, j, x, y)
  {
    if casts != [] {
      var n := |casts| - 1;
      var front := casts[..n];
      ActorPairsMember(front, x, y);
      CastPairsMember(casts[n], x, y);
      assert (x, y) in ActorPairs(casts) <==>
        (x, y) in ActorPairs(front) || (x, y) in CastPairs(casts[n]);
      if exists k, i, j :: 0 <= k < |casts| && IndexPair(casts[k], i, j, x, y) {
        var k, i, j :| 0 <= k < |casts| && IndexPair(casts[k], i, j, x, y);
        if k < n {
          assert front[k] == casts[k];
          assert IndexPair(front[k], i, j, x, y);
        }
      }
      if exists k, i, j :: 0 <= k < n && IndexPair(front[k], i, j, x, y) {
        var k, i, j :| 0 <= k < n && IndexPair(front[k], i, j, x, y);
        assert front[k] == casts[k];
        assert IndexPair(casts[k], i, j, x, y);
      }
      if exists i, j :: IndexPair(casts[n], i, j, x, y) {
        var i, j :| IndexPair(casts[n], i, j, x, y);
        assert 0 <= n < |casts| && IndexPair(casts[n], i, j, x, y);
      }
    }
  }

  /** The co-actor graph as the builder leaves it. */
  function ActorGraph(casts: seq<seq<Vertex>>): GraphData
  {
    AddEdges(Empty(false), ActorPairs(casts))
  }

  /** An actor is a vertex of the co-actor graph exactly when some cast with at
      least two entries names them: actors of single-actor casts are left out. */
  lemma ActorGraphVertices(casts: seq<seq<Vertex>>, x: Vertex)
    ensures x in ActorGraph(casts).vertices <==>
      exists k, i :: 0 <= k < |casts| && 0 <= i < |casts[k]| && |casts[k]| >= 2 && casts[k][i] == x
  {
    var ps := ActorPairs(casts);
    AddEdgesVertices(Empty(false), ps);
    if x in Ends(ps) {
      var q :| q in ps && (q.0 == x || q.1 == x);
      ActorPairsMember(casts, q.0, q.1);
      var k, i, j :| 0 <= k < |casts| && IndexPair(casts[k], i, j, q.0, q.1);
      if q.0 == x {
        assert casts[k][i] == x;
      } else {
        assert casts[k][j] == x;
      }
    }
    if exists k, i :: 0 <= k < |casts| && 0 <= i < |casts[k]| && |casts[k]| >= 2 && casts[k][i] == x {
      var k, i :| 0 <= k < |casts| && 0 <= i < |casts[k]| && |casts[k]| >= 2 && casts[k][i] == x;
      var c := casts[k];
      if i + 1 < |c| {
        assert IndexPair(c, i, i + 1, x, c[i + 1]);
        ActorPairsMember(casts, x, c[i + 1]);
        assert (x, c[i + 1]) in ps;
      } else {
        assert IndexPair(c, 0, i, c[0], x);
        ActorPairsMember(casts, c[0], x);
        assert (c[0], x) in ps;
      }
    }
  }

  /** Two distinct actors are joined exactly when they share a cast, and the
      weight of the entry is the number of calls made on the pair in either
      order, which is the number of index pairs `i < j` naming the two actors. */
  lemma ActorGraphWeight(casts: seq<seq<Vertex>>, a: Vertex, b: Vertex)
    requires a != b
    ensures var g := ActorGraph(casts);
      && WeightOf(AdjOf(g.adj, a), b) == CountUnordered(ActorPairs(casts), a, b)
      && (b in Nbrs(AdjOf(g.adj, a)) <==>
          exists k, i, j :: 0 <= k < |casts| && (IndexPair(casts[k], i, j, a, b) || IndexPair(casts[k], i, j, b, a)))
  {
    var ps := ActorPairs(casts);
    assert Links(map[]) == {};
    AddEdgesWeight(Empty(false), ps, a, b);
    AddEdgesNbrs(Empty(false), ps, a, b);
    ActorPairsMember(casts, a, b);
    ActorPairsMember(casts, b, a);
  }

  /** `construir_grafo_atores(elencos)` (grafo.py:121-139). */
  method BuildActorGraph(casts: seq<seq<Vertex>>) returns (g: Graph)
    ensures fresh(g) && g.Valid() && !g.directed
    ensures g.Data() == ActorGraph(casts)
  {
    g := new Graph(false);
    assert Wf(Empty(false));
    assert Links(map[]) == {};
    var k := 0;
    while k < |casts|
      invariant 0 <= k <= |casts|
      invariant fresh(g) && !g.directed
      invariant g.Data() == AddEdges(Empty(false), ActorPairs(casts[..k]))
    {
      AddEdgesWf(Empty(false), ActorPairs(casts[..k]));
      AddCast(g, casts[k], Empty(false), ActorPairs(casts[..k]));
      assert casts[..k + 1][..k] == casts[..k];
      k := k + 1;
    }
    assert casts[..k] == casts;
    AddEdgesWf(Empty(false), ActorPairs(casts));
  }

  /** The two inner loops of grafo.py:135-137 for one cast. */
  method AddCast(g: Graph, c: seq<Vertex>, ghost g0: GraphData, ghost done: seq<Pair>)
    requires Wf(g0) && g.Data() == AddEdges(g0, done)
    modifies g
    ensures g.Data() == AddEdges(g0, done + CastPairs(c))
  {
    assert RowsBefore(c, 0) == [];
    assert done + [] == done;
    var i := 0;
    while i < |c|
      invariant 0 <= i <= |c|
      invariant g.Data() == AddEdges(g0, done + RowsBefore(c, i))
    {
      AddFan(g, c[i], c[i + 1..], g0, done + RowsBefore(c, i));
      RowsBeforeStep(done, c, i);
      i := i + 1;
    }
  }

  lemma RowsBeforeStep(done: seq<Pair>, c: seq<Vertex>, i: nat)
    requires i < |c|
    ensures done + RowsBefore(c, i + 1) == done + RowsBefore(c, i) + Row(c, i)
  {
  }

  /** The innermost loops of grafo.py:136-137 and grafo.py:158-159:
      `adicionar_aresta(x, y, 1)` for each `y` of `ys`, in order. */
  method AddFan(g: Graph, x: Vertex, ys: seq<Vertex>, ghost g0: GraphData, ghost done: seq<Pair>)
    requires Wf(g0) && g.Data() == AddEdges(g0, done)
    modifies g
    ensures g.Data() == AddEdges(g0, done + Fan(x, ys))
  {
    ghost var row := Fan(x, ys);
    PrefixEnds(done, row);
    var j := 0;
    while j < |ys|
      invariant 0 <= j <= |ys|
      invariant g.Data() == AddEdges(g0, done + row[..j])
    {
      PrefixStep(done, row, j, (x, ys[j]));
      AddCall(g, x, ys[j], g0, done + row[..j]);
      j := j + 1;
    }
  }

  /** One call `adicionar_aresta(x, y, 1)` of a builder's innermost loop. */
  method AddCall(g: Graph, x: Vertex, y: Vertex, ghost g0: GraphData, ghost done: seq<Pair>)
    requires Wf(g0) && g.Data() == AddEdges(g0, done)
    modifies g
    ensures g.Data() == AddEdges(g0, done + [(x, y)])
  {
    AddEdgesSnoc(g0, done, (x, y));
    AddEdgesWf(g0, done);
    g.AddEdge(x, y, 1);
  }

  // ---------------------------------------------------------------------
  // The actor-to-director graph

  /** The pairs of one record (grafo.py:157-159): every actor with every director. */
  function RecordPairs(c: seq<Vertex>, ds: seq<Vertex>): seq<Pair>
  {
    if c == [] then [] else RecordPairs(c[..|c| - 1], ds) + Fan(c[|c| - 1], ds)
  }

  /** The pairs of the first `n` records. */
  function DirectorPairsUpTo(casts: seq<seq<Vertex>>, dirs: seq<seq<Vertex>>, n: nat): seq<Pair>
    requires n <= |casts| && n <= |dirs|
  {
    if n == 0 then [] else DirectorPairsUpTo(casts, dirs, n - 1) + RecordPairs(casts[n - 1], dirs[n - 1])
  }

  /** `zip(elencos, diretores)` stops at the shorter list. */
  function Records(casts: seq<seq<Vertex>>, dirs: seq<seq<Vertex>>): nat
  {
    if |casts| <= |dirs| then |casts| else |dirs|
  }

  /** The pairs of grafo.py:156-159, record by record. */
  function DirectorPairs(casts: seq<seq<Vertex>>, dirs: seq<seq<Vertex>>): seq<Pair>
  {
    DirectorPairsUpTo(casts, dirs, Records(casts, dirs))
  }

  lemma {:induction false} RecordPairsMember(c: seq<Vertex>, ds: seq<Vertex>, x: Vertex, y: Vertex)
    ensures (x, y) in RecordPairs(c, ds) <==> x in c && y in ds
  {
    if c != [] {
      var init := c[..|c| - 1];
      RecordPairsMember(init, ds, x, y);
      assert c == init + [c[|c| - 1]];
      var r := Fan(c[|c| - 1], ds);
      if (x, y) in r {
        var j :| 0 <= j < |r| && r[j] == (x, y);
        assert ds[j] == y;
      }
      if x == c[|c| - 1] && y in ds {
        var j :| 0 <= j < |ds| && ds[j] == y;
        assert r[j] == (x, y);
      }
    }
  }

  lemma {:induction false} DirectorPairsUpToMember(casts: seq<seq<Vertex>>, dirs: seq<seq<Vertex>>, n: nat, x: Vertex, y: Vertex)
    requires n <= |casts| && n <= |dirs|
    ensures (x, y) in DirectorPairsUpTo(casts, dirs, n) <==>
      exists k :: 0 <= k < n && x in casts[k] && y in dirs[k]
  {
    if n > 0 {
      DirectorPairsUpToMember(casts, dirs, n - 1, x, y);
      RecordPairsMember(casts[n - 1], dirs[n - 1], x, y);
    }
  }

  /** A pair is generated exactly when the actor and the director share a record
      that `zip` reaches. */
  lemma DirectorPairsMember(casts: seq<seq<Vertex>>, dirs: seq<seq<Vertex>>, x: Vertex, y: Vertex)
    ensures (x, y) in DirectorPairs(casts, dirs) <==>
      exists k :: 0 <= k < |casts| && k < |dirs| && x in casts[k] && y in dirs[k]
  {
    DirectorPairsUpToMember(casts, dirs, Records(casts, dirs), x, y);
  }

  /** The actor-to-director graph as the builder leaves it. */
  function DirectorGraph(casts: seq<seq<Vertex>>, dirs: seq<seq<Vertex>>): GraphData
  {
    AddEdges(Empty(true), DirectorPairs(casts, dirs))
  }

  /** Every edge goes from an actor to a director of the same record, every such
      combination is an edge, and its weight counts the calls on it. */
  lemma DirectorGraphEdges(casts: seq<seq<Vertex>>, dirs: seq<seq<Vertex>>, a: Vertex, b: Vertex)
    ensures var g := DirectorGraph(casts, dirs);
      && WeightOf(AdjOf(g.adj, a), b) == CountOrdered(DirectorPairs(casts, dirs), a, b)
      && (b in Nbrs(AdjOf(g.adj, a)) <==>
          exists k :: 0 <= k < |casts| && k < |dirs| && a in casts[k] && b in dirs[k])
  {
    var ps := DirectorPairs(casts, dirs);
    assert Arcs(map[]) == {};
    AddEdgesWeight(Empty(true), ps, a, b);
    AddEdgesNbrs(Empty(true), ps, a, b);
    DirectorPairsMember(casts, dirs, a, b);
  }

  /** A name is a vertex exactly when it is an actor of a record with at least
      one director, or a director of a record with at least one actor: records
      without directors add nothing. */
  lemma DirectorGraphVertices(casts: seq<seq<Vertex>>, dirs: seq<seq<Vertex>>, x: Vertex)
    ensures x in DirectorGraph(casts, dirs).vertices <==>
      exists k :: 0 <= k < |casts| && k < |dirs| &&
        ((x in casts[k] && dirs[k] != []) || (x in dirs[k] && casts[k] != []))
  {
    var ps := DirectorPairs(casts, dirs);
    AddEdgesVertices(Empty(true), ps);
    if x in Ends(ps) {
      var q :| q in ps && (q.0 == x || q.1 == x);
      DirectorPairsMember(casts, dirs, q.0, q.1);
    }
    if exists k :: 0 <= k < |casts| && k < |dirs| &&
        ((x in casts[k] && dirs[k] != []) || (x in dirs[k] && casts[k] != [])) {
      var k :| 0 <= k < |casts| && k < |dirs| &&
        ((x in casts[k] && dirs[k] != []) || (x in dirs[k] && casts[k] != []));
      if x in casts[k] && dirs[k] != [] {
        DirectorPairsMember(casts, dirs, x, dirs[k][0]);
        assert (x, dirs[k][0]) in ps;
      } else {
        DirectorPairsMember(casts, dirs, casts[k][0], x);
        assert (casts[k][0], x) in ps;
      }
    }
  }

  /** `construir_grafo_direcional(elencos, diretores)` (grafo.py:141-161). */
  method BuildDirectorGraph(casts: seq<seq<Vertex>>, dirs: seq<seq<Vertex>>) returns (g: Graph)
    ensures fresh(g) && g.Valid() && g.directed
    ensures g.Data() == DirectorGraph(casts, dirs)
  {
    g := new Graph(true);
    assert Wf(Empty(true));
    assert Arcs(map[]) == {};
    var n := Records(casts, dirs);
    var k := 0;
    while k < n
      invariant k <= n
      invariant fresh(g) && g.directed
      invariant g.Data() == AddEdges(Empty(true), DirectorPairsUpTo(casts, dirs, k))
    {
      DirectorPairsStep(casts, dirs, k);
      AddEdgesWf(Empty(true), DirectorPairsUpTo(casts, dirs, k));
      AddRecord(g, casts[k], dirs[k], Empty(true), DirectorPairsUpTo(casts, dirs, k));
      k := k + 1;
    }
    AddEdgesWf(Empty(true), DirectorPairs(casts, dirs));
  }

  lemma DirectorPairsStep(casts: seq<seq<Vertex>>, dirs: seq<seq<Vertex>>, k: nat)
    requires k < |casts| && k < |dirs|
    ensures DirectorPairsUpTo(casts, dirs, k + 1) ==
      DirectorPairsUpTo(casts, dirs, k) + RecordPairs(casts[k], dirs[k])
  {
  }

  /** The two inner loops of grafo.py:157-159 for one record. */
  method AddRecord(g: Graph, c: seq<Vertex>, ds: seq<Vertex>, ghost g0: GraphData, ghost done: seq<Pair>)
    requires Wf(g0) && g.Data() == AddEdges(g0, done)
    modifies g
    ensures g.Data() == AddEdges(g0, done + RecordPairs(c, ds))
  {
    assert c[..0] == [] && c[..|c|] == c;
    assert done + RecordPairs(c[..0], ds) == done;
    var i := 0;
    while i < |c|
      invariant 0 <= i <= |c|
      invariant g.Data() == AddEdges(g0, done + RecordPairs(c[..i], ds))
    {
      AddFan(g, c[i], ds, g0, done + RecordPairs(c[..i], ds));
      RecordPairsStep(done, c, ds, i);
      i := i + 1;
    }
  }

  lemma RecordPairsStep(done: seq<Pair>, c: seq<Vertex>, ds: seq<Vertex>, i: nat)
    requires i < |c|
    ensures done + RecordPairs(c[..i + 1], ds) == done + RecordPairs(c[..i], ds) + Fan(c[i], ds)
  {
    assert c[..i + 1][..i] == c[..i];
  }
}
