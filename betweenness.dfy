/** Betweenness centrality (`betweenness_centrality`, algoritmos.py:130-178):
    Brandes' breadth-first search from every source, counting shortest paths
    and recording predecessors, then the accumulation of dependencies back
    along the search order. */
module Betweenness {
  import opened Adjacency
  import opened GraphStore
  import opened Traversal
  import opened ShortestPaths
  import opened Closeness

  /** The labels of `d` the search has set; `-1` marks a vertex not yet reached. */
  function Dist(d: map<Vertex, int>): map<Vertex, int>
  {
    map x | x in d && d[x] >= 0 :: d[x]
  }

  /** `P.get(w, [])`: the predecessors recorded for `w`. */
  function PredsOf(P: map<Vertex, seq<Vertex>>, w: Vertex): seq<Vertex>
  {
    if w in P then P[w] else []
  }

  /** `d[x]`: the level of `x`, `-1` for a name the search holds no level for. */
  function LevelOf(d: map<Vertex, int>, x: Vertex): int
  {
    if x in d then d[x] else -1
  }

  /** `sigma[x]`: the path count of `x`, 0 for a name the search holds none for. */
  function CountOf(sigma: map<Vertex, int>, x: Vertex): int
  {
    if x in sigma then sigma[x] else 0
  }

  /** `delta[x]` or `centralidade[x]`, 0.0 for an absent key as a
      `defaultdict(float)` reads it. */
  function DepOf(m: map<Vertex, real>, x: Vertex): real
  {
    if x in m then m[x] else 0.0
  }

  /** What the scan of a popped vertex changes in the search of
      algoritmos.py:139-154: the queue `Q`, the levels `d`, the path counts
      `sigma` and the predecessor lists `P`. */
  datatype Front = Front(Q: seq<Vertex>, d: map<Vertex, int>, sigma: map<Vertex, int>, P: map<Vertex, seq<Vertex>>)

  /** The body of `for w, _ in grafo.lista_adj.get(v, [])` (algoritmos.py:149-154)
      for the neighbour `w` of the popped `v`: an unreached `w` is queued with
      level `d[v] + 1`; then a `w` at level `d[v] + 1` adds `sigma[v]` to its
      count and records `v` as a predecessor. */
  function Visit(v: Vertex, w: Vertex, f: Front): Front
  {
    var f1 := if LevelOf(f.d, w) < 0 then f.(Q := f.Q + [w], d := f.d[w := LevelOf(f.d, v) + 1]) else f;
    if LevelOf(f1.d, w) == LevelOf(f1.d, v) + 1 then
      f1.(sigma := f1.sigma[w := CountOf(f1.sigma, w) + CountOf(f1.sigma, v)], P := f1.P[w := PredsOf(f1.P, w) + [v]])
    else f1
  }

  /** `Visit` for the neighbour of each entry of `es`, in list order. */
  function Scan(v: Vertex, es: seq<Entry>, f: Front): Front
  {
    if es == [] then f else Scan(v, es[1..], Visit(v, es[0].nbr, f))
  }

  /** One pass of `while Q` (algoritmos.py:146-154): pop the front `v` of the
      queue, append it to `S`, and scan its entries. */
  function Pop(adj: AdjMap, S: seq<Vertex>, f: Front): (seq<Vertex>, Front)
    requires f.Q != []
  {
    var v := f.Q[0];
    (S + [v], Scan(v, AdjOf(adj, v), f.(Q := f.Q[1..])))
  }

  /** At most `fuel` passes of `while Q`, stopping when the queue is empty. */
  function Run(adj: AdjMap, S: seq<Vertex>, f: Front, fuel: nat): (seq<Vertex>, Front)
    decreases fuel
  {
    if fuel == 0 || f.Q == [] then (S, f)
    else
      var next := Pop(adj, S, f);
      Run(adj, next.0, next.1, fuel - 1)
  }

  /** The search phase of algoritmos.py:139-154 from `s`: `S` and the final
      `Front`, after as many passes as there are vertices (each vertex is
      popped at most once, so the queue is then empty). */
  function Searched(g: GraphData, s: Vertex): (seq<Vertex>, Front)
  {
    Run(g.adj, [], Front([s], (map x | x in g.vertices :: -1)[s := 0], (map x | x in g.vertices :: 0)[s := 1], map[]),
        |g.vertices|)
  }

  /** The `for v in P[w]` loop of algoritmos.py:159-161 from dependencies
      `delta`: `delta[v] += (sigma[v] / sigma[w]) * (1 + delta[w])` for each
      `v` of `preds`, in order, when `sigma[w] != 0`. */
  function Spread(preds: seq<Vertex>, sigma: map<Vertex, int>, w: Vertex, delta: map<Vertex, real>): map<Vertex, real>
  {
    if preds == [] then delta
    else
      var v := preds[0];
      var delta' := if CountOf(sigma, w) != 0
        then delta[v := DepOf(delta, v) + Share(CountOf(sigma, v), CountOf(sigma, w), DepOf(delta, w))]
        else delta;
      Spread(preds[1..], sigma, w, delta')
  }

  /** The `while S` loop of algoritmos.py:157-163 from dependencies `delta`
      and running centrality `C`, popping `stack` from its end: the
      centrality it leaves. */
  function Drain(s: Vertex, stack: seq<Vertex>, P: map<Vertex, seq<Vertex>>, sigma: map<Vertex, int>,
                 delta: map<Vertex, real>, C: map<Vertex, real>): map<Vertex, real>
    decreases |stack|
  {
    if stack == [] then C
    else
      var w := stack[|stack| - 1];
      var delta' := Spread(PredsOf(P, w), sigma, w, delta);
      var C' := if w != s then C[w := DepOf(C, w) + DepOf(delta', w)] else C;
      Drain(s, stack[..|stack| - 1], P, sigma, delta', C')
  }

  /** The `centralidade` of algoritmos.py:131-165 once the sources `srcs`
      are processed, in order, before the halving: each source's search and
      then its accumulation from all-zero dependencies. */
  function Accumulated(g: GraphData, srcs: seq<Vertex>): map<Vertex, real>
  {
    if srcs == [] then map[]
    else
      var s := srcs[|srcs| - 1];
      var r := Searched(g, s);
      Drain(s, r.0, r.1.P, r.1.sigma, map x | x in g.vertices :: 0.0, Accumulated(g, srcs[..|srcs| - 1]))
  }

  /** Path counts, predecessor lists and levels of algoritmos.py:139-154 once
      `head` vertices are popped (`order` is every vertex reached so far, in
      the order they were queued): every reached vertex has a positive count,
      every other vertex keeps `d = -1` and `sigma = 0`, the popped vertices
      have nondecreasing levels, and each predecessor `u` recorded for `w` is
      reached, lies one level before `w`, and lists `w`. */
  ghost predicate Counted(adj: AdjMap, vs: set<Vertex>, d: map<Vertex, int>, sigma: map<Vertex, int>,
                          P: map<Vertex, seq<Vertex>>, order: seq<Vertex>, head: nat)
  {
    && d.Keys == vs && sigma.Keys == vs && head <= |order|
    && (forall x :: x in sigma ==> sigma[x] >= 0)
    && (forall i :: 0 <= i < |order| ==> order[i] in vs && sigma[order[i]] >= 1)
    && (forall x :: x in d && d[x] < 0 ==> d[x] == -1 && sigma[x] == 0)
    && (forall i :: 0 < i < head ==> d[order[i - 1]] <= d[order[i]])
    && (forall w :: w in P ==> w in order)
    && (forall w, u {:trigger u in P[w]} :: w in P && u in P[w] ==>
          u in order && w in d && u in d && d[u] + 1 == d[w] && w in Nbrs(AdjOf(adj, u)))
  }

  /** The state of the `for w, _ in grafo.lista_adj.get(v, [])` loop of
      algoritmos.py:148-154 after its first `j` entries, `v` being the vertex
      just popped: the labelling and queue invariant of `Probing`, `d`
      agreeing with the labels, and the counting invariant. */
  ghost predicate Scanning(g: GraphData, s: Vertex, v: Vertex, head: nat, mid: nat,
                           dist0: map<Vertex, int>, order0: seq<Vertex>, Q0: seq<Vertex>, j: nat,
                           d: map<Vertex, int>, dist: map<Vertex, int>, order: seq<Vertex>, Q: seq<Vertex>,
                           sigma: map<Vertex, int>, P: map<Vertex, seq<Vertex>>)
  {
    && Probing(g.adj, s, v, head, mid, dist0, order0, Q0, j, dist, order, Q)
    && Tracks(d, dist)
    && Counted(g.adj, g.vertices, d, sigma, P, order, head)
  }

  /** The search's labelling invariant while `v` is scanned, the queue as the
      tail of `order`, only labels added since the scan began, and the first
      `j` neighbours of `v` labelled at most one level beyond it. */
  ghost predicate Probing(adj: AdjMap, s: Vertex, v: Vertex, head: nat, mid: nat,
                          dist0: map<Vertex, int>, order0: seq<Vertex>, Q0: seq<Vertex>, j: nat,
                          dist: map<Vertex, int>, order: seq<Vertex>, Q: seq<Vertex>)
  {
    && j <= |AdjOf(adj, v)| && head <= |order| && Q == order[head..]
    && dist0.Keys <= dist.Keys && order0 <= order
    && (dist.Keys == dist0.Keys ==> Q == Q0)
    && Labelling(adj, s, v, head, mid, dist, order)
    && forall k :: 0 <= k < j ==>
         AdjOf(adj, v)[k].nbr in dist && dist[AdjOf(adj, v)[k].nbr] <= dist[v] + 1
  }

  /** `dist` holds exactly the labels `d >= 0`: the view `Dist(d)`, carried
      along the search. */
  ghost predicate Tracks(d: map<Vertex, int>, dist: map<Vertex, int>)
  {
    && (forall x :: x in dist ==> x in d && d[x] == dist[x])
    && (forall x :: x in d && d[x] >= 0 ==> x in dist)
  }

  lemma TracksDist(d: map<Vertex, int>, dist: map<Vertex, int>)
    requires Tracks(d, dist) && forall x :: x in dist ==> dist[x] >= 0
    ensures dist == Dist(d)
  {
  }

  /** One pass of that loop, for the neighbour `w` in entry `j`: the state
      becomes `Visit` of the old one, and the scanning invariant moves on to
      entry `j + 1`. */
  method VisitEntry(g: GraphData, s: Vertex, v: Vertex, ghost head: nat, ghost mid: nat,
                    ghost dist0: map<Vertex, int>, ghost order0: seq<Vertex>, ghost Q0: seq<Vertex>, j: nat,
                    d1: map<Vertex, int>, ghost dist1: map<Vertex, int>, ghost order1: seq<Vertex>,
                    Q1: seq<Vertex>, sigma1: map<Vertex, int>, P1: map<Vertex, seq<Vertex>>)
    returns (d: map<Vertex, int>, ghost dist: map<Vertex, int>, ghost order: seq<Vertex>, Q: seq<Vertex>,
             sigma: map<Vertex, int>, P: map<Vertex, seq<Vertex>>)
    requires Closed(g.adj, g.vertices) && j < |AdjOf(g.adj, v)|
    requires Scanning(g, s, v, head, mid, dist0, order0, Q0, j, d1, dist1, order1, Q1, sigma1, P1)
    ensures Scanning(g, s, v, head, mid, dist0, order0, Q0, j + 1, d, dist, order, Q, sigma, P)
    ensures Front(Q, d, sigma, P) == Visit(v, AdjOf(g.adj, v)[j].nbr, Front(Q1, d1, sigma1, P1))
  {
    var w := AdjOf(g.adj, v)[j].nbr;
    assert AdjOf(g.adj, v)[j] in AdjOf(g.adj, v);
    EntryTarget(g, v, w);
    assert v in dist1;
    Q, d, sigma, P := VisitStep(v, w, Q1, d1, sigma1, P1);
    if d1[w] < 0 {
      VisitKeepsNew(g, s, v, w, head, mid, dist0, order0, Q0, j, d1, dist1, order1, Q1, sigma1, P1, d, Q, sigma, P);
      dist, order := dist1[w := dist1[v] + 1], order1 + [w];
    } else {
      VisitKeepsOld(g, s, v, w, head, mid, dist0, order0, Q0, j, d1, dist1, order1, Q1, sigma1, P1, d, Q, sigma, P);
      dist, order := dist1, order1;
    }
  }

  /** The body of that loop (algoritmos.py:149-154) for the neighbour `w` of
      the popped `v`: the new state is `Visit` of the old. */
  method VisitStep(v: Vertex, w: Vertex, Q1: seq<Vertex>, d1: map<Vertex, int>,
                   sigma1: map<Vertex, int>, P1: map<Vertex, seq<Vertex>>)
    returns (Q: seq<Vertex>, d: map<Vertex, int>, sigma: map<Vertex, int>, P: map<Vertex, seq<Vertex>>)
    requires v in d1 && w in d1 && v in sigma1 && w in sigma1
    ensures Front(Q, d, sigma, P) == Visit(v, w, Front(Q1, d1, sigma1, P1))
  {
    Q, d, sigma, P := Q1, d1, sigma1, P1;
    if d[w] < 0 {
      Q := Q + [w];
      d := d[w := d[v] + 1];
    }
    if d[w] == d[v] + 1 {
      sigma := sigma[w := sigma[w] + sigma[v]];
      P := P[w := PredsOf(P, w) + [v]];
    }
  }

  /** `Visit` of an unreached neighbour keeps the scanning invariant, one
      entry on, with `w` labelled and queued. */
  lemma VisitKeepsNew(g: GraphData, s: Vertex, v: Vertex, w: Vertex, head: nat, mid: nat,
                   dist0: map<Vertex, int>, order0: seq<Vertex>, Q0: seq<Vertex>, j: nat,
                   d1: map<Vertex, int>, dist1: map<Vertex, int>, order1: seq<Vertex>, Q1: seq<Vertex>,
                   sigma1: map<Vertex, int>, P1: map<Vertex, seq<Vertex>>,
                   d: map<Vertex, int>, Q: seq<Vertex>, sigma: map<Vertex, int>, P: map<Vertex, seq<Vertex>>)
    requires Closed(g.adj, g.vertices) && j < |AdjOf(g.adj, v)| && w == AdjOf(g.adj, v)[j].nbr
    requires Scanning(g, s, v, head, mid, dist0, order0, Q0, j, d1, dist1, order1, Q1, sigma1, P1)
    requires w in d1 && v in dist1
    requires Front(Q, d, sigma, P) == Visit(v, w, Front(Q1, d1, sigma1, P1))
    requires d1[w] < 0
    ensures Scanning(g, s, v, head, mid, dist0, order0, Q0, j + 1, d, dist1[w := dist1[v] + 1], order1 + [w], Q, sigma, P)
  {
    assert v in d1 && v in sigma1 && w in sigma1;
    NewEntry(g, s, v, w, head, mid, dist0, order0, Q0, j, d1, dist1, order1, Q1, sigma1, P1);
    VisitNew(v, w, Q1, d1, sigma1, P1, Q, d, sigma, P);
  }

  /** `Visit` of a reached neighbour keeps the scanning invariant, one entry on. */
  lemma VisitKeepsOld(g: GraphData, s: Vertex, v: Vertex, w: Vertex, head: nat, mid: nat,
                   dist0: map<Vertex, int>, order0: seq<Vertex>, Q0: seq<Vertex>, j: nat,
                   d1: map<Vertex, int>, dist1: map<Vertex, int>, order1: seq<Vertex>, Q1: seq<Vertex>,
                   sigma1: map<Vertex, int>, P1: map<Vertex, seq<Vertex>>,
                   d: map<Vertex, int>, Q: seq<Vertex>, sigma: map<Vertex, int>, P: map<Vertex, seq<Vertex>>)
    requires Closed(g.adj, g.vertices) && j < |AdjOf(g.adj, v)| && w == AdjOf(g.adj, v)[j].nbr
    requires Scanning(g, s, v, head, mid, dist0, order0, Q0, j, d1, dist1, order1, Q1, sigma1, P1)
    requires w in d1 && v in dist1
    requires Front(Q, d, sigma, P) == Visit(v, w, Front(Q1, d1, sigma1, P1))
    requires d1[w] >= 0
    ensures Scanning(g, s, v, head, mid, dist0, order0, Q0, j + 1, d, dist1, order1, Q, sigma, P)
  {
    assert v in d1 && v in sigma1 && w in sigma1;
    OldEntry(g, s, v, w, head, mid, dist0, order0, Q0, j, d1, dist1, order1, Q1, sigma1, P1);
    if d1[w] == d1[v] + 1 {
      VisitCounts(v, w, Q1, d1, sigma1, P1, Q, d, sigma, P);
    } else {
      VisitSkips(v, w, Q1, d1, sigma1, P1, Q, d, sigma, P);
    }
  }

  /** `Visit` of an unreached `w` labels, queues and counts it. */
  lemma VisitNew(v: Vertex, w: Vertex, Q1: seq<Vertex>, d1: map<Vertex, int>, sigma1: map<Vertex, int>,
                 P1: map<Vertex, seq<Vertex>>, Q: seq<Vertex>, d: map<Vertex, int>,
                 sigma: map<Vertex, int>, P: map<Vertex, seq<Vertex>>)
    requires v in d1 && w in d1 && d1[w] < 0 && v != w && v in sigma1 && w in sigma1
    requires Front(Q, d, sigma, P) == Visit(v, w, Front(Q1, d1, sigma1, P1))
    ensures Q == Q1 + [w] && d == d1[w := d1[v] + 1]
    ensures sigma == sigma1[w := sigma1[w] + sigma1[v]] && P == P1[w := PredsOf(P1, w) + [v]]
  {
  }

  /** `Visit` of a reached `w` one level beyond `v` counts it. */
  lemma VisitCounts(v: Vertex, w: Vertex, Q1: seq<Vertex>, d1: map<Vertex, int>, sigma1: map<Vertex, int>,
                    P1: map<Vertex, seq<Vertex>>, Q: seq<Vertex>, d: map<Vertex, int>,
                    sigma: map<Vertex, int>, P: map<Vertex, seq<Vertex>>)
    requires v in d1 && w in d1 && d1[w] >= 0 && d1[w] == d1[v] + 1 && v in sigma1 && w in sigma1
    requires Front(Q, d, sigma, P) == Visit(v, w, Front(Q1, d1, sigma1, P1))
    ensures Q == Q1 && d == d1
    ensures sigma == sigma1[w := sigma1[w] + sigma1[v]] && P == P1[w := PredsOf(P1, w) + [v]]
  {
  }

  /** `Visit` of a reached `w` at any other level changes nothing. */
  lemma VisitSkips(v: Vertex, w: Vertex, Q1: seq<Vertex>, d1: map<Vertex, int>, sigma1: map<Vertex, int>,
                   P1: map<Vertex, seq<Vertex>>, Q: seq<Vertex>, d: map<Vertex, int>,
                   sigma: map<Vertex, int>, P: map<Vertex, seq<Vertex>>)
    requires v in d1 && w in d1 && d1[w] >= 0 && d1[w] != d1[v] + 1
    requires Front(Q, d, sigma, P) == Visit(v, w, Front(Q1, d1, sigma1, P1))
    ensures Q == Q1 && d == d1 && sigma == sigma1 && P == P1
  {
  }

  /** An unreached neighbour `w`: it gets level `d[v] + 1`, joins the queue,
      takes `v`'s path count and records `v` as its predecessor. */
  lemma NewEntry(g: GraphData, s: Vertex, v: Vertex, w: Vertex, head: nat, mid: nat,
                 dist0: map<Vertex, int>, order0: seq<Vertex>, Q0: seq<Vertex>, j: nat,
                 d: map<Vertex, int>, dist: map<Vertex, int>, order: seq<Vertex>, Q: seq<Vertex>,
                 sigma: map<Vertex, int>, P: map<Vertex, seq<Vertex>>)
    requires Closed(g.adj, g.vertices) && j < |AdjOf(g.adj, v)|
    requires Scanning(g, s, v, head, mid, dist0, order0, Q0, j, d, dist, order, Q, sigma, P)
    requires w == AdjOf(g.adj, v)[j].nbr && w in d && d[w] < 0
    ensures v in d && v != w
    ensures Scanning(g, s, v, head, mid, dist0, order0, Q0, j + 1, d[w := d[v] + 1], dist[w := dist[v] + 1],
                  order + [w], Q + [w], sigma[w := sigma[w] + sigma[v]], P[w := PredsOf(P, w) + [v]])
  {
    assert AdjOf(g.adj, v)[j] in AdjOf(g.adj, v);
    assert v in dist && w !in dist;
    assert v in order && w !in order;
    NewProbe(g.adj, s, v, w, head, mid, dist0, order0, Q0, j, dist, order, Q);
    CountNew(g.adj, g.vertices, d, sigma, P, order, head, v, w);
    TracksNew(d, dist, v, w);
  }

  /** Labelling `w` one beyond `v` in both views keeps them in step. */
  lemma TracksNew(d: map<Vertex, int>, dist: map<Vertex, int>, v: Vertex, w: Vertex)
    requires Tracks(d, dist) && v in dist && dist[v] >= 0 && w in d && w !in dist
    ensures Tracks(d[w := d[v] + 1], dist[w := dist[v] + 1])
  {
  }

  /** Labelling the unreached neighbour `w` in entry `j` and queueing it. */
  lemma NewProbe(adj: AdjMap, s: Vertex, v: Vertex, w: Vertex, head: nat, mid: nat,
                 dist0: map<Vertex, int>, order0: seq<Vertex>, Q0: seq<Vertex>, j: nat,
                 dist: map<Vertex, int>, order: seq<Vertex>, Q: seq<Vertex>)
    requires j < |AdjOf(adj, v)| && w == AdjOf(adj, v)[j].nbr && w !in dist
    requires Probing(adj, s, v, head, mid, dist0, order0, Q0, j, dist, order, Q)
    ensures v in dist
    ensures Probing(adj, s, v, head, mid, dist0, order0, Q0, j + 1, dist[w := dist[v] + 1], order + [w], Q + [w])
  {
    assert AdjOf(adj, v)[j] in AdjOf(adj, v);
    LabelStep(adj, s, v, head, mid, dist, order, w);
    DropSnoc(order, w, head);
    ScannedPrefix(adj, v, j, dist, dist[w := dist[v] + 1], w);
  }

  /** An already reached neighbour `w`: it is at most one level beyond `v`,
      and when exactly one it takes `v`'s path count and records `v`. */
  lemma OldEntry(g: GraphData, s: Vertex, v: Vertex, w: Vertex, head: nat, mid: nat,
                 dist0: map<Vertex, int>, order0: seq<Vertex>, Q0: seq<Vertex>, j: nat,
                 d: map<Vertex, int>, dist: map<Vertex, int>, order: seq<Vertex>, Q: seq<Vertex>,
                 sigma: map<Vertex, int>, P: map<Vertex, seq<Vertex>>)
    requires Closed(g.adj, g.vertices) && j < |AdjOf(g.adj, v)|
    requires Scanning(g, s, v, head, mid, dist0, order0, Q0, j, d, dist, order, Q, sigma, P)
    requires w == AdjOf(g.adj, v)[j].nbr && w in d && d[w] >= 0
    ensures v in d
    ensures Scanning(g, s, v, head, mid, dist0, order0, Q0, j + 1, d, dist, order, Q, sigma, P)
    ensures (d[w] == d[v] + 1 ==>
            Scanning(g, s, v, head, mid, dist0, order0, Q0, j + 1, d, dist, order, Q,
                     sigma[w := sigma[w] + sigma[v]], P[w := PredsOf(P, w) + [v]]))
  {
    assert AdjOf(g.adj, v)[j] in AdjOf(g.adj, v);
    assert v in dist && w in dist;
    LabelledBound(g.adj, s, v, head, mid, dist, order, w);
    ScannedPrefix(g.adj, v, j, dist, dist, w);
    if d[w] == d[v] + 1 {
      CountOld(g.adj, g.vertices, d, sigma, P, order, head, v, w);
    }
  }

  /** The neighbours scanned before keep their labels, and `w` now has one. */
  lemma ScannedPrefix(adj: AdjMap, v: Vertex, j: nat, dist1: map<Vertex, int>, dist: map<Vertex, int>, w: Vertex)
    requires j < |AdjOf(adj, v)| && w == AdjOf(adj, v)[j].nbr && v in dist1
    requires forall k :: 0 <= k < j ==>
      AdjOf(adj, v)[k].nbr in dist1 && dist1[AdjOf(adj, v)[k].nbr] <= dist1[v] + 1
    requires forall x :: x in dist1 ==> x in dist && dist[x] == dist1[x]
    requires w in dist && dist[w] <= dist[v] + 1
    ensures forall k :: 0 <= k < j + 1 ==>
      AdjOf(adj, v)[k].nbr in dist && dist[AdjOf(adj, v)[k].nbr] <= dist[v] + 1
  {
  }

  /** Labelling a newly reached `w` from `v` and counting `v`'s paths into it
      keeps the counting invariant. */
  lemma CountNew(adj: AdjMap, vs: set<Vertex>, d: map<Vertex, int>, sigma: map<Vertex, int>,
                 P: map<Vertex, seq<Vertex>>, order: seq<Vertex>, head: nat, v: Vertex, w: Vertex)
    requires Counted(adj, vs, d, sigma, P, order, head)
    requires v in order && d[v] >= 0 && w in vs && d[w] < 0 && w !in order && w in Nbrs(AdjOf(adj, v))
    ensures Counted(adj, vs, d[w := d[v] + 1], sigma[w := sigma[w] + sigma[v]],
                    P[w := PredsOf(P, w) + [v]], order + [w], head)
  {
    var d', sigma', P', order' := d[w := d[v] + 1], sigma[w := sigma[w] + sigma[v]], P[w := PredsOf(P, w) + [v]], order + [w];
    forall i | 0 < i < head ensures d'[order'[i - 1]] <= d'[order'[i]] {
      assert order'[i - 1] == order[i - 1] && order'[i] == order[i];
      assert order[i - 1] != w && order[i] != w;
    }
    forall i | 0 <= i < |order'| ensures order'[i] in vs && sigma'[order'[i]] >= 1 {
      if i < |order| {
        assert order'[i] == order[i];
      }
    }
    forall x, u | x in P' && u in P'[x]
      ensures u in order' && x in d' && u in d' && d'[u] + 1 == d'[x] && x in Nbrs(AdjOf(adj, u))
    {
      if x == w {
        assert w !in P;
        assert u == v;
      } else {
        assert u in P[x];
        assert u != w;
      }
    }
  }

  /** Counting `v`'s paths into an already reached `w` one level beyond it
      keeps the counting invariant. */
  lemma CountOld(adj: AdjMap, vs: set<Vertex>, d: map<Vertex, int>, sigma: map<Vertex, int>,
                 P: map<Vertex, seq<Vertex>>, order: seq<Vertex>, head: nat, v: Vertex, w: Vertex)
    requires Counted(adj, vs, d, sigma, P, order, head)
    requires v in order && w in order && d[w] == d[v] + 1 && w in Nbrs(AdjOf(adj, v))
    ensures Counted(adj, vs, d, sigma[w := sigma[w] + sigma[v]], P[w := PredsOf(P, w) + [v]], order, head)
  {
    var P' := P[w := PredsOf(P, w) + [v]];
    forall x, u | x in P' && u in P'[x]
      ensures u in order && x in d && u in d && d[u] + 1 == d[x] && x in Nbrs(AdjOf(adj, u))
    {
      if x == w && u != v {
        assert u in PredsOf(P, w);
      }
    }
  }

  /** Scanning from entry `j` is visiting entry `j` and scanning the rest. */
  lemma ScanStep(v: Vertex, l: seq<Entry>, j: nat, f: Front)
    requires j < |l|
    ensures Scan(v, l[j..], f) == Scan(v, l[j + 1..], Visit(v, l[j].nbr, f))
  {
    assert l[j..][1..] == l[j + 1..];
  }

  /** Popping the front of the queue keeps the popped levels nondecreasing:
      the front's level is the largest so far. */
  lemma PopCounted(adj: AdjMap, vs: set<Vertex>, s: Vertex, d: map<Vertex, int>, dist: map<Vertex, int>,
                   sigma: map<Vertex, int>, P: map<Vertex, seq<Vertex>>, order: seq<Vertex>, head: nat, mid: nat)
    requires head < |order| && BfsState(adj, s, dist, order, head, mid, order[head..])
    requires Tracks(d, dist) && Counted(adj, vs, d, sigma, P, order, head)
    ensures Counted(adj, vs, d, sigma, P, order, head + 1)
  {
    if 0 < head {
      assert order[head - 1] in dist && order[head] in dist;
    }
  }

  /** The body of the `while Q` loop of algoritmos.py:146-154 for the popped
      vertex `v = order[head - 1]`: all its entries are scanned, after which
      `v` counts as popped. */
  method Expand(g: GraphData, s: Vertex, v: Vertex, ghost head: nat, ghost mid0: nat,
                d0: map<Vertex, int>, ghost dist0: map<Vertex, int>, ghost order0: seq<Vertex>,
                Q0: seq<Vertex>, sigma0: map<Vertex, int>, P0: map<Vertex, seq<Vertex>>)
    returns (d: map<Vertex, int>, ghost dist: map<Vertex, int>, ghost order: seq<Vertex>, Q: seq<Vertex>,
             sigma: map<Vertex, int>, P: map<Vertex, seq<Vertex>>, ghost mid: nat)
    requires Closed(g.adj, g.vertices)
    requires 0 < head <= |order0| && v == order0[head - 1]
    requires BfsState(g.adj, s, dist0, order0, head - 1, mid0, [v] + Q0)
    requires Tracks(d0, dist0) && Counted(g.adj, g.vertices, d0, sigma0, P0, order0, head)
    ensures BfsState(g.adj, s, dist, order, head, mid, Q)
    ensures Tracks(d, dist) && Counted(g.adj, g.vertices, d, sigma, P, order, head)
    ensures order0 <= order
    ensures Front(Q, d, sigma, P) == Scan(v, AdjOf(g.adj, v), Front(Q0, d0, sigma0, P0))
  {
    StartLabelling(g.adj, s, v, head, mid0, dist0, order0);
    assert Q0 == ([v] + Q0)[1..];
    d, dist, order, Q, sigma, P := ScanEntries(g, s, v, head, mid0, dist0, order0, Q0, d0, sigma0, P0);
    ScannedAll(g.adj, v, dist);
    mid := EndLabelling(g.adj, s, v, head, mid0, dist, order);
  }

  /** The `for w, _ in grafo.lista_adj.get(v, [])` loop of
      algoritmos.py:148-154: every entry of `v` visited in list order, the new
      state being `Scan` of the old, and the scanning invariant kept. */
  method ScanEntries(g: GraphData, s: Vertex, v: Vertex, ghost head: nat, ghost mid: nat,
                     ghost dist0: map<Vertex, int>, ghost order0: seq<Vertex>, Q0: seq<Vertex>,
                     d0: map<Vertex, int>, sigma0: map<Vertex, int>, P0: map<Vertex, seq<Vertex>>)
    returns (d: map<Vertex, int>, ghost dist: map<Vertex, int>, ghost order: seq<Vertex>, Q: seq<Vertex>,
             sigma: map<Vertex, int>, P: map<Vertex, seq<Vertex>>)
    requires Closed(g.adj, g.vertices)
    requires Scanning(g, s, v, head, mid, dist0, order0, Q0, 0, d0, dist0, order0, Q0, sigma0, P0)
    ensures Scanning(g, s, v, head, mid, dist0, order0, Q0, |AdjOf(g.adj, v)|, d, dist, order, Q, sigma, P)
    ensures Front(Q, d, sigma, P) == Scan(v, AdjOf(g.adj, v), Front(Q0, d0, sigma0, P0))
  {
    d, dist, order, Q, sigma, P := d0, dist0, order0, Q0, sigma0, P0;
    ghost var l := AdjOf(g.adj, v);
    var j := 0;
    while j < |AdjOf(g.adj, v)|
      invariant Scanning(g, s, v, head, mid, dist0, order0, Q0, j, d, dist, order, Q, sigma, P)
      invariant Scan(v, l[j..], Front(Q, d, sigma, P)) == Scan(v, l, Front(Q0, d0, sigma0, P0))
    {
      ScanStep(v, l, j, Front(Q, d, sigma, P));
      d, dist, order, Q, sigma, P := VisitEntry(g, s, v, head, mid, dist0, order0, Q0, j, d, dist, order, Q, sigma, P);
      j := j + 1;
    }
    assert l[j..] == [];
  }

  /** The state of the `while Q` loop of algoritmos.py:145-154 after `head`
      pops: the search invariant over the labels `dist` (those `d >= 0`),
      `S` the popped prefix of `order`, and the counting invariant. */
  ghost predicate Searching(g: GraphData, s: Vertex, S: seq<Vertex>, Q: seq<Vertex>,
                            d: map<Vertex, int>, sigma: map<Vertex, int>, P: map<Vertex, seq<Vertex>>,
                            dist: map<Vertex, int>, order: seq<Vertex>, head: nat, mid: nat)
  {
    && BfsState(g.adj, s, dist, order, head, mid, Q)
    && S == order[..head]
    && Tracks(d, dist) && Counted(g.adj, g.vertices, d, sigma, P, order, head)
    && dist.Keys <= g.vertices
  }

  /** Only `s` is labelled (algoritmos.py:142-145). */
  lemma SearchStart(g: GraphData, s: Vertex, d: map<Vertex, int>, sigma: map<Vertex, int>)
    requires s in g.vertices
    requires d == (map x | x in g.vertices :: -1)[s := 0]
    requires sigma == (map x | x in g.vertices :: 0)[s := 1]
    ensures Searching(g, s, [], [s], d, sigma, map[], map[s := 0], [s], 0, 1)
  {
    ReachesInZero(g.adj, s);
  }

  /** One pass of the `while Q` loop: pop `v`, append it to `S`, scan its
      entries; the new state is `Pop` of the old. */
  method SearchStep(g: GraphData, s: Vertex, S0: seq<Vertex>, Q0: seq<Vertex>,
                    d0: map<Vertex, int>, sigma0: map<Vertex, int>, P0: map<Vertex, seq<Vertex>>,
                    ghost dist0: map<Vertex, int>, ghost order0: seq<Vertex>, ghost head0: nat, ghost mid0: nat)
    returns (S: seq<Vertex>, Q: seq<Vertex>, d: map<Vertex, int>, sigma: map<Vertex, int>,
             P: map<Vertex, seq<Vertex>>, ghost dist: map<Vertex, int>, ghost order: seq<Vertex>,
             ghost head: nat, ghost mid: nat)
    requires Closed(g.adj, g.vertices) && Q0 != []
    requires Searching(g, s, S0, Q0, d0, sigma0, P0, dist0, order0, head0, mid0)
    ensures Searching(g, s, S, Q, d, sigma, P, dist, order, head, mid)
    ensures head == head0 + 1
    ensures (S, Front(Q, d, sigma, P)) == Pop(g.adj, S0, Front(Q0, d0, sigma0, P0))
  {
    PopShape(g.adj, S0, Q0, d0, sigma0, P0);
    PopReady(g, s, S0, Q0, d0, sigma0, P0, dist0, order0, head0, mid0);
    var v := Q0[0];
    Q := Q0[1..];
    S := S0 + [v];
    head := head0 + 1;
    d, dist, order, Q, sigma, P, mid := Expand(g, s, v, head, mid0, d0, dist0, order0, Q, sigma0, P0);
    Popped(g, s, S, Q, d, sigma, P, dist, order, head, mid, order0);
  }

  /** Popping the front `order[head]` of a nonempty queue: what the scan of
      the popped vertex starts from. */
  lemma PopReady(g: GraphData, s: Vertex, S0: seq<Vertex>, Q0: seq<Vertex>,
                 d0: map<Vertex, int>, sigma0: map<Vertex, int>, P0: map<Vertex, seq<Vertex>>,
                 dist0: map<Vertex, int>, order0: seq<Vertex>, head0: nat, mid0: nat)
    requires Q0 != [] && Searching(g, s, S0, Q0, d0, sigma0, P0, dist0, order0, head0, mid0)
    ensures head0 < |order0| && Q0[0] == order0[head0] && S0 + [Q0[0]] == order0[..head0 + 1]
    ensures BfsState(g.adj, s, dist0, order0, head0, mid0, [Q0[0]] + Q0[1..])
    ensures Tracks(d0, dist0) && Counted(g.adj, g.vertices, d0, sigma0, P0, order0, head0 + 1)
  {
    assert [Q0[0]] + Q0[1..] == order0[head0..];
    PopCounted(g.adj, g.vertices, s, d0, dist0, sigma0, P0, order0, head0, mid0);
    TakeSnoc(order0, head0);
  }

  /** After the scan, the popped prefix is unchanged and the search
      invariant holds again. */
  lemma Popped(g: GraphData, s: Vertex, S: seq<Vertex>, Q: seq<Vertex>,
               d: map<Vertex, int>, sigma: map<Vertex, int>, P: map<Vertex, seq<Vertex>>,
               dist: map<Vertex, int>, order: seq<Vertex>, head: nat, mid: nat, order0: seq<Vertex>)
    requires BfsState(g.adj, s, dist, order, head, mid, Q)
    requires Tracks(d, dist) && Counted(g.adj, g.vertices, d, sigma, P, order, head)
    requires order0 <= order && head <= |order0| && S == order0[..head]
    ensures Searching(g, s, S, Q, d, sigma, P, dist, order, head, mid)
  {
    TakeExtended(order0, order, head);
  }

  /** The search phase of algoritmos.py:139-154 from source `s`: `S` lists the
      vertices reachable from `s` in nondecreasing level, `s` first; the
      levels `d >= 0` are the shortest-path distances from `s` and every other
      vertex keeps `d = -1` and `sigma = 0`; every reached vertex has a
      positive path count; and each predecessor `u` recorded for `w` is a
      reached vertex one level before `w` with an entry to it. */
  method BrandesSearch(g: GraphData, s: Vertex)
    returns (S: seq<Vertex>, P: map<Vertex, seq<Vertex>>, sigma: map<Vertex, int>, d: map<Vertex, int>)
    requires Closed(g.adj, g.vertices) && s in g.vertices
    ensures d.Keys == g.vertices && sigma.Keys == g.vertices
    ensures ShortestFrom(g.adj, s, Dist(d))
    ensures S != [] && S[0] == s && Distinct(S)
    ensures forall x :: x in S <==> Reaches(g.adj, s, x)
    ensures forall x :: x in S ==> x in g.vertices && sigma[x] >= 1
    ensures forall x :: x in sigma ==> sigma[x] >= 0
    ensures forall x :: x in d && d[x] < 0 ==> d[x] == -1 && sigma[x] == 0
    ensures forall i :: 0 < i < |S| ==> d[S[i - 1]] <= d[S[i]]
    ensures forall w :: w in P ==> w in S
    ensures forall w, u {:trigger u in P[w]} :: w in P && u in P[w] ==>
              u in S && d[u] + 1 == d[w] && w in Nbrs(AdjOf(g.adj, u))
    ensures (S, Front([], d, sigma, P)) == Searched(g, s)
  {
    d := (map x | x in g.vertices :: -1)[s := 0];
    sigma := (map x | x in g.vertices :: 0)[s := 1];
    SearchStart(g, s, d, sigma);
    P := map[];
    ghost var dist, order, head, mid;
    S, d, sigma, P, dist, order, head, mid := SearchAll(g, s, [], [s], d, sigma, P, map[s := 0], [s], 0, 1);
    SearchDone(g, s, S, d, sigma, P, dist, order, head, mid);
    assert (S, Front([], d, sigma, P)) == Searched(g, s);
  }

  /** The `while Q` loop of algoritmos.py:145-154, run until the queue is
      empty. */
  method SearchAll(g: GraphData, s: Vertex, S0: seq<Vertex>, Q0: seq<Vertex>,
                   d0: map<Vertex, int>, sigma0: map<Vertex, int>, P0: map<Vertex, seq<Vertex>>,
                   ghost dist0: map<Vertex, int>, ghost order0: seq<Vertex>, ghost head0: nat, ghost mid0: nat)
    returns (S: seq<Vertex>, d: map<Vertex, int>, sigma: map<Vertex, int>,
             P: map<Vertex, seq<Vertex>>, ghost dist: map<Vertex, int>, ghost order: seq<Vertex>,
             ghost head: nat, ghost mid: nat)
    requires Closed(g.adj, g.vertices)
    requires Searching(g, s, S0, Q0, d0, sigma0, P0, dist0, order0, head0, mid0)
    requires head0 <= |g.vertices|
    ensures Searching(g, s, S, [], d, sigma, P, dist, order, head, mid)
    ensures (S, Front([], d, sigma, P)) == Run(g.adj, S0, Front(Q0, d0, sigma0, P0), |g.vertices| - head0)
  {
    S, d, sigma, P, dist, order, head, mid := S0, d0, sigma0, P0, dist0, order0, head0, mid0;
    var Q := Q0;
    while Q != []
      invariant Searching(g, s, S, Q, d, sigma, P, dist, order, head, mid)
      invariant head <= |g.vertices|
      invariant Run(g.adj, S, Front(Q, d, sigma, P), |g.vertices| - head)
             == Run(g.adj, S0, Front(Q0, d0, sigma0, P0), |g.vertices| - head0)
      decreases |g.vertices| - head
    {
      ghost var S1, Q1, d1, sigma1, P1, head1 := S, Q, d, sigma, P, head;
      SearchBound(g, s, S, Q, d, sigma, P, dist, order, head, mid);
      S, Q, d, sigma, P, dist, order, head, mid := SearchStep(g, s, S, Q, d, sigma, P, dist, order, head, mid);
      RunStep(g.adj, S1, Q1, d1, sigma1, P1, |g.vertices| - head1, S, Q, d, sigma, P);
      SearchBound(g, s, S, Q, d, sigma, P, dist, order, head, mid);
    }
  }

  /** `Pop` of a state whose queue is `Q0`. */
  lemma PopShape(adj: AdjMap, S0: seq<Vertex>, Q0: seq<Vertex>, d0: map<Vertex, int>,
                 sigma0: map<Vertex, int>, P0: map<Vertex, seq<Vertex>>)
    requires Q0 != []
    ensures Pop(adj, S0, Front(Q0, d0, sigma0, P0))
         == (S0 + [Q0[0]], Scan(Q0[0], AdjOf(adj, Q0[0]), Front(Q0[1..], d0, sigma0, P0)))
  {
  }

  /** A run with fuel left and a nonempty queue is a pop followed by the rest
      of the run. */
  lemma RunStep(adj: AdjMap, S1: seq<Vertex>, Q1: seq<Vertex>, d1: map<Vertex, int>, sigma1: map<Vertex, int>,
                P1: map<Vertex, seq<Vertex>>, fuel: nat, S: seq<Vertex>, Q: seq<Vertex>, d: map<Vertex, int>,
                sigma: map<Vertex, int>, P: map<Vertex, seq<Vertex>>)
    requires fuel > 0 && Q1 != []
    requires (S, Front(Q, d, sigma, P)) == Pop(adj, S1, Front(Q1, d1, sigma1, P1))
    ensures Run(adj, S1, Front(Q1, d1, sigma1, P1), fuel) == Run(adj, S, Front(Q, d, sigma, P), fuel - 1)
  {
  }

  /** Every queued vertex is a distinct vertex of the graph, so no more
      vertices are popped than the graph has. */
  lemma SearchBound(g: GraphData, s: Vertex, S: seq<Vertex>, Q: seq<Vertex>,
                    d: map<Vertex, int>, sigma: map<Vertex, int>, P: map<Vertex, seq<Vertex>>,
                    dist: map<Vertex, int>, order: seq<Vertex>, head: nat, mid: nat)
    requires Searching(g, s, S, Q, d, sigma, P, dist, order, head, mid)
    ensures head <= |g.vertices| && (Q != [] ==> head < |g.vertices|)
  {
    DistinctCard(order, dist.Keys);
    SubsetCard(dist.Keys, g.vertices);
  }

  /** A subset is no larger than its superset. */
  lemma SubsetCard(a: set<Vertex>, b: set<Vertex>)
    requires a <= b
    ensures |a| <= |b|
  {
    assert b == a + (b - a);
  }

  /** With the queue empty every reached vertex has been popped, and the
      search invariant says what `BrandesSearch` promises. */
  lemma SearchDone(g: GraphData, s: Vertex, S: seq<Vertex>, d: map<Vertex, int>, sigma: map<Vertex, int>,
                   P: map<Vertex, seq<Vertex>>, dist: map<Vertex, int>, order: seq<Vertex>, head: nat, mid: nat)
    requires Searching(g, s, S, [], d, sigma, P, dist, order, head, mid)
    ensures d.Keys == g.vertices && sigma.Keys == g.vertices
    ensures ShortestFrom(g.adj, s, Dist(d))
    ensures S != [] && S[0] == s && Distinct(S)
    ensures forall x :: x in S <==> Reaches(g.adj, s, x)
    ensures forall x :: x in S ==> x in g.vertices && sigma[x] >= 1
    ensures forall x :: x in sigma ==> sigma[x] >= 0
    ensures forall x :: x in d && d[x] < 0 ==> d[x] == -1 && sigma[x] == 0
    ensures forall i :: 0 < i < |S| ==> d[S[i - 1]] <= d[S[i]]
    ensures forall w :: w in P ==> w in S
    ensures forall w, u {:trigger u in P[w]} :: w in P && u in P[w] ==>
              u in S && d[u] + 1 == d[w] && w in Nbrs(AdjOf(g.adj, u))
  {
    BfsDone(g.adj, s, dist, order, head, mid);
    TracksDist(d, dist);
    assert S == order;
    forall x ensures x in S <==> Reaches(g.adj, s, x) {
      assert x in S <==> x in dist;
    }
  }

  /** Every entry of `v` scanned means every neighbour of `v` is labelled at
      most one level beyond `v`. */
  lemma ScannedAll(adj: AdjMap, v: Vertex, dist: map<Vertex, int>)
    requires v in dist
    requires forall k :: 0 <= k < |AdjOf(adj, v)| ==>
      AdjOf(adj, v)[k].nbr in dist && dist[AdjOf(adj, v)[k].nbr] <= dist[v] + 1
    ensures forall x :: x in Nbrs(AdjOf(adj, v)) ==> x in dist && dist[x] <= dist[v] + 1
  {
    var l := AdjOf(adj, v);
    forall x | x in Nbrs(l) ensures x in dist && dist[x] <= dist[v] + 1 {
      var e :| e in l && e.nbr == x;
      var k :| 0 <= k < |l| && l[k] == e;
    }
  }


  /** The accumulation phase of algoritmos.py:156-163 for source `s`: `S` is
      popped from its end; each recorded predecessor `v` of the popped `w`
      gains `(sigma[v] / sigma[w]) * (1 + delta[w])`, and every popped
      `w != s` adds its dependency `delta[w]` to the running centrality `C`
      (a `defaultdict(float)` whose insertion order `keys` keeps). `C` gains
      exactly the vertices of `S` other than `s`, no value decreases, values
      stay nonnegative, and the other vertices keep their values. */
  method Accumulate(g: GraphData, s: Vertex, S: seq<Vertex>, P: map<Vertex, seq<Vertex>>, sigma: map<Vertex, int>,
                    C0: map<Vertex, real>, keys0: seq<Vertex>)
    returns (C: map<Vertex, real>, keys: seq<Vertex>)
    requires sigma.Keys == g.vertices && forall x :: x in sigma ==> sigma[x] >= 0
    requires forall x :: x in S ==> x in g.vertices && sigma[x] >= 1
    requires forall w, u {:trigger u in P[w]} :: w in P && u in P[w] ==> u in g.vertices
    requires Enumerates(keys0, C0.Keys) && forall x :: x in C0 ==> C0[x] >= 0.0
    ensures Enumerates(keys, C.Keys) && keys0 <= keys
    ensures forall x :: x in C <==> x in C0 || (x in S && x != s)
    ensures forall x :: x in C ==> C[x] >= 0.0
    ensures forall x :: x in C0 ==> C[x] >= C0[x]
    ensures forall x :: x in C0 && (x !in S || x == s) ==> C[x] == C0[x]
    ensures C == Drain(s, S, P, sigma, map x | x in g.vertices :: 0.0, C0)
  {
    var delta := map x | x in g.vertices :: 0.0;
    var stack := S;
    C, keys := C0, keys0;
    while stack != []
      invariant Popping(g, s, S, sigma, C0, keys0, stack, delta, C, keys)
      invariant Drain(s, stack, P, sigma, delta, C) == Drain(s, S, P, sigma, map x | x in g.vertices :: 0.0, C0)
      decreases |stack|
    {
      stack, delta, C, keys := PopDependency(g, s, S, P, sigma, C0, keys0, stack, delta, C, keys);
    }
  }

  /** The state of the `while S` loop of algoritmos.py:157-163 while `stack`
      is what is left of `S`: dependencies are nonnegative and the running
      centrality has been credited for the popped vertices. */
  ghost predicate Popping(g: GraphData, s: Vertex, S: seq<Vertex>, sigma: map<Vertex, int>,
                          C0: map<Vertex, real>, keys0: seq<Vertex>, stack: seq<Vertex>,
                          delta: map<Vertex, real>, C: map<Vertex, real>, keys: seq<Vertex>)
  {
    && |stack| <= |S| && stack == S[..|stack|]
    && delta.Keys == g.vertices && (forall x :: x in delta ==> delta[x] >= 0.0)
    && Credited(s, C0, keys0, S[|stack|..], C, keys)
  }

  /** One pass of that loop: pop `w`, pass its dependency on to its
      predecessors, and credit it unless it is the source. */
  method PopDependency(g: GraphData, s: Vertex, S: seq<Vertex>, P: map<Vertex, seq<Vertex>>, sigma: map<Vertex, int>,
                       C0: map<Vertex, real>, keys0: seq<Vertex>, stack0: seq<Vertex>,
                       delta0: map<Vertex, real>, C1: map<Vertex, real>, keys1: seq<Vertex>)
    returns (stack: seq<Vertex>, delta: map<Vertex, real>, C: map<Vertex, real>, keys: seq<Vertex>)
    requires sigma.Keys == g.vertices && forall x :: x in sigma ==> sigma[x] >= 0
    requires forall x :: x in S ==> x in g.vertices && sigma[x] >= 1
    requires forall w, u {:trigger u in P[w]} :: w in P && u in P[w] ==> u in g.vertices
    requires stack0 != [] && Popping(g, s, S, sigma, C0, keys0, stack0, delta0, C1, keys1)
    ensures Popping(g, s, S, sigma, C0, keys0, stack, delta, C, keys) && |stack| < |stack0|
    ensures Drain(s, stack, P, sigma, delta, C) == Drain(s, stack0, P, sigma, delta0, C1)
  {
    var w := stack0[|stack0| - 1];
    ghost var popped := S[|stack0|..];
    stack := stack0[..|stack0| - 1];
    delta := Propagate(g, P, sigma, w, delta0);
    if w != s {
      C, keys := Credit(C1, keys1, w, delta[w]);
      CreditStep(s, C0, keys0, popped, C1, keys1, w, delta[w], C, keys);
      DrainCredit(s, stack0, P, sigma, delta0, C1, delta, C);
    } else {
      C, keys := C1, keys1;
      CreditSource(s, C0, keys0, popped, C, keys);
      DrainSource(s, stack0, P, sigma, delta0, C1, delta);
    }
    PoppingStep(g, s, S, sigma, C0, keys0, stack0, delta, C, keys);
  }

  /** Popping a vertex other than the source passes its dependency on and
      credits it. */
  lemma DrainCredit(s: Vertex, stack0: seq<Vertex>, P: map<Vertex, seq<Vertex>>, sigma: map<Vertex, int>,
                    delta0: map<Vertex, real>, C1: map<Vertex, real>, delta: map<Vertex, real>, C: map<Vertex, real>)
    requires stack0 != [] && stack0[|stack0| - 1] != s
    requires delta == Spread(PredsOf(P, stack0[|stack0| - 1]), sigma, stack0[|stack0| - 1], delta0)
    requires stack0[|stack0| - 1] in delta
    requires C == C1[stack0[|stack0| - 1] := DepOf(C1, stack0[|stack0| - 1]) + delta[stack0[|stack0| - 1]]]
    ensures Drain(s, stack0[..|stack0| - 1], P, sigma, delta, C) == Drain(s, stack0, P, sigma, delta0, C1)
  {
  }

  /** Popping the source passes its dependency on and credits nothing. */
  lemma DrainSource(s: Vertex, stack0: seq<Vertex>, P: map<Vertex, seq<Vertex>>, sigma: map<Vertex, int>,
                    delta0: map<Vertex, real>, C1: map<Vertex, real>, delta: map<Vertex, real>)
    requires stack0 != [] && stack0[|stack0| - 1] == s
    requires delta == Spread(PredsOf(P, s), sigma, s, delta0)
    ensures Drain(s, stack0[..|stack0| - 1], P, sigma, delta, C1) == Drain(s, stack0, P, sigma, delta0, C1)
  {
  }

  /** Popping the last vertex of `stack0` moves it to the front of the popped ones. */
  lemma PoppingStep(g: GraphData, s: Vertex, S: seq<Vertex>, sigma: map<Vertex, int>,
                    C0: map<Vertex, real>, keys0: seq<Vertex>, stack0: seq<Vertex>,
                    delta: map<Vertex, real>, C: map<Vertex, real>, keys: seq<Vertex>)
    requires stack0 != [] && |stack0| <= |S| && stack0 == S[..|stack0|]
    requires delta.Keys == g.vertices && forall x :: x in delta ==> delta[x] >= 0.0
    requires Credited(s, C0, keys0, [stack0[|stack0| - 1]] + S[|stack0|..], C, keys)
    ensures Popping(g, s, S, sigma, C0, keys0, stack0[..|stack0| - 1], delta, C, keys)
  {
    var n := |stack0| - 1;
    assert S[n..] == [stack0[n]] + S[|stack0|..];
    assert stack0[..n] == S[..n];
  }

  /** The running centrality after the popped vertices `popped`: it names
      the vertices it named before and the popped ones other than `s`, in
      insertion order `keys`; its values are nonnegative, none decreased, and
      those of vertices not credited are unchanged. */
  ghost predicate Credited(s: Vertex, C0: map<Vertex, real>, keys0: seq<Vertex>, popped: seq<Vertex>,
                           C: map<Vertex, real>, keys: seq<Vertex>)
  {
    && Enumerates(keys, C.Keys) && keys0 <= keys
    && (forall x :: x in C <==> x in C0 || (x in popped && x != s))
    && (forall x :: x in C ==> C[x] >= 0.0)
    && (forall x :: x in C0 ==> C[x] >= C0[x])
    && (forall x :: x in C0 && (x !in popped || x == s) ==> C[x] == C0[x])
  }

  /** Crediting the popped `w` with a nonnegative dependency. */
  lemma CreditStep(s: Vertex, C0: map<Vertex, real>, keys0: seq<Vertex>, popped: seq<Vertex>,
                   C1: map<Vertex, real>, keys1: seq<Vertex>, w: Vertex, x: real,
                   C: map<Vertex, real>, keys: seq<Vertex>)
    requires Credited(s, C0, keys0, popped, C1, keys1) && x >= 0.0 && w != s
    requires Enumerates(keys, C.Keys) && keys1 <= keys
    requires C == C1[w := (if w in C1 then C1[w] else 0.0) + x]
    ensures Credited(s, C0, keys0, [w] + popped, C, keys)
  {
  }

  /** Popping the source credits nothing. */
  lemma CreditSource(s: Vertex, C0: map<Vertex, real>, keys0: seq<Vertex>, popped: seq<Vertex>,
                     C: map<Vertex, real>, keys: seq<Vertex>)
    requires Credited(s, C0, keys0, popped, C, keys)
    ensures Credited(s, C0, keys0, [s] + popped, C, keys)
  {
  }

  /** `centralidade[w] += x` on a `defaultdict(float)`: an absent `w` counts
      as 0.0 and joins the end of the insertion order. */
  method Credit(C0: map<Vertex, real>, keys0: seq<Vertex>, w: Vertex, x: real)
    returns (C: map<Vertex, real>, keys: seq<Vertex>)
    requires Enumerates(keys0, C0.Keys)
    ensures Enumerates(keys, C.Keys) && keys0 <= keys
    ensures C == C0[w := (if w in C0 then C0[w] else 0.0) + x]
  {
    var prev := if w in C0 then C0[w] else 0.0;
    keys := keys0;
    if w !in C0 {
      Traversal.DistinctAppend(keys, [w]);
      keys := keys + [w];
    }
    C := C0[w := prev + x];
  }

  /** The `for v in P[w]` loop of algoritmos.py:159-161: every recorded
      predecessor `v` of `w` gains its share of `w`'s dependency, and no
      dependency becomes negative. */
  method Propagate(g: GraphData, P: map<Vertex, seq<Vertex>>, sigma: map<Vertex, int>, w: Vertex,
                   delta0: map<Vertex, real>)
    returns (delta: map<Vertex, real>)
    requires sigma.Keys == g.vertices && forall x :: x in sigma ==> sigma[x] >= 0
    requires w in g.vertices && sigma[w] >= 1
    requires forall w, u {:trigger u in P[w]} :: w in P && u in P[w] ==> u in g.vertices
    requires delta0.Keys == g.vertices && forall x :: x in delta0 ==> delta0[x] >= 0.0
    ensures delta.Keys == g.vertices && forall x :: x in delta ==> delta[x] >= 0.0
    ensures forall x :: x in delta && x !in PredsOf(P, w) ==> delta[x] == delta0[x]
    ensures forall x :: x in delta ==> delta[x] >= delta0[x]
    ensures delta == Spread(PredsOf(P, w), sigma, w, delta0)
  {
    var preds := PredsOf(P, w);
    delta := delta0;
    var k := 0;
    while k < |preds|
      invariant k <= |preds|
      invariant delta.Keys == g.vertices && forall x :: x in delta ==> delta[x] >= 0.0
      invariant forall x :: x in delta && x !in preds ==> delta[x] == delta0[x]
      invariant forall x :: x in delta ==> delta[x] >= delta0[x]
      invariant Spread(preds[k..], sigma, w, delta) == Spread(preds, sigma, w, delta0)
    {
      var v := preds[k];
      assert v in P[w];
      assert preds[k..][1..] == preds[k + 1..];
      if sigma[w] != 0 {
        delta := delta[v := delta[v] + Share(sigma[v], sigma[w], delta[w])];
      }
      k := k + 1;
    }
    assert preds[k..] == [];
  }

  /** When `w` is not among its own predecessors (in a search, each
      predecessor lies one level before `w`) and none is listed twice,
      `Spread` adds to each predecessor `x` its share
      `(sigma[x] / sigma[w]) * (1 + delta[w])` and leaves every other
      dependency as it was. */
  lemma {:induction false} SpreadValue(preds: seq<Vertex>, sigma: map<Vertex, int>, w: Vertex,
                                       delta: map<Vertex, real>, x: Vertex)
    requires w !in preds && Distinct(preds) && CountOf(sigma, w) != 0
    ensures DepOf(Spread(preds, sigma, w, delta), x)
         == DepOf(delta, x) + if x in preds then Share(CountOf(sigma, x), CountOf(sigma, w), DepOf(delta, w)) else 0.0
  {
    if preds != [] {
      var v := preds[0];
      var delta' := delta[v := DepOf(delta, v) + Share(CountOf(sigma, v), CountOf(sigma, w), DepOf(delta, w))];
      assert Spread(preds, sigma, w, delta) == Spread(preds[1..], sigma, w, delta');
      assert v != w && DepOf(delta', w) == DepOf(delta, w);
      assert Distinct(preds[1..]) && v !in preds[1..];
      SpreadValue(preds[1..], sigma, w, delta', x);
      assert x in preds <==> x == v || x in preds[1..];
    }
  }

  /** `(sigma[v] / sigma[w]) * (1 + delta[w])`: the share of `w`'s
      dependency passed to its predecessor `v`, never negative. */
  function Share(sv: int, sw: int, dw: real): (r: real)
    requires sw != 0
    ensures sv >= 0 && sw >= 1 && dw >= 0.0 ==> r >= 0.0
  {
    var r := (sv as real / sw as real) * (1.0 + dw);
    assert sv >= 0 && sw >= 1 && dw >= 0.0 ==> r >= 0.0 by {
      if sv >= 0 && sw >= 1 && dw >= 0.0 {
        ShareNonnegative(sv, sw, dw);
      }
    }
    r
  }

  /** `(sigma[v] / sigma[w]) * (1 + delta[w])` is nonnegative. */
  lemma ShareNonnegative(a: int, b: int, c: real)
    requires a >= 0 && b >= 1 && c >= 0.0
    ensures (a as real / b as real) * (1.0 + c) >= 0.0
  {
    assert a as real / b as real >= 0.0;
  }

  /** Some vertex of `srcs` other than `x` reaches `x`: `x` is popped in the
      accumulation from one of those sources. */
  ghost predicate ReachedFrom(adj: AdjMap, srcs: seq<Vertex>, x: Vertex)
  {
    exists i :: 0 <= i < |srcs| && srcs[i] != x && Reaches(adj, srcs[i], x)
  }

  lemma ReachedFromSnoc(adj: AdjMap, srcs: seq<Vertex>, s: Vertex, x: Vertex)
    ensures ReachedFrom(adj, srcs + [s], x) <==> ReachedFrom(adj, srcs, x) || (s != x && Reaches(adj, s, x))
  {
    var t := srcs + [s];
    if ReachedFrom(adj, t, x) {
      var i :| 0 <= i < |t| && t[i] != x && Reaches(adj, t[i], x);
      if i < |srcs| {
        assert srcs[i] == t[i];
      }
    }
    if ReachedFrom(adj, srcs, x) {
      var i :| 0 <= i < |srcs| && srcs[i] != x && Reaches(adj, srcs[i], x);
      assert t[i] == srcs[i];
    }
    if s != x && Reaches(adj, s, x) {
      assert t[|srcs|] == s;
    }
  }

  /** The normalised betweenness of algoritmos.py:172-176: with
      `normalizar` and more than two vertices the value is scaled by
      `1 / ((n - 1)(n - 2))` on a directed graph and `2 / ((n - 1)(n - 2))` on
      an undirected one; otherwise it is left as it is. */
  function Normalized(valor: real, directed: bool, n: int, normalize: bool): real
  {
    if normalize && n > 2 then valor * Factor(directed, n) else valor
  }

  /** `norm` of algoritmos.py:173 for `n > 2` vertices. */
  function Factor(directed: bool, n: int): real
    requires n > 2
  {
    if directed then 1.0 / ((n - 1) * (n - 2)) as real else 2.0 / ((n - 1) * (n - 2)) as real
  }

  /** Normalising keeps a value nonnegative, and an undirected graph's factor
      is twice a directed one's. */
  lemma NormalizedFactor(valor: real, n: int, normalize: bool)
    requires valor >= 0.0
    ensures Normalized(valor, true, n, normalize) >= 0.0
    ensures Normalized(valor, false, n, normalize) >= 0.0
    ensures normalize && n > 2 ==> Normalized(valor, false, n, normalize) == 2.0 * Normalized(valor, true, n, normalize)
    ensures !(normalize && n > 2) ==> Normalized(valor, false, n, normalize) == valor
  {
    if normalize && n > 2 {
      var f := Factor(true, n);
      FactorPositive(n);
      assert Factor(false, n) == 2.0 * f;
      assert valor * f >= 0.0;
      assert valor * (2.0 * f) == 2.0 * (valor * f);
    }
  }

  /** The directed factor is positive, and the undirected one twice it. */
  lemma FactorPositive(n: int)
    requires n > 2
    ensures Factor(true, n) > 0.0 && Factor(false, n) == 2.0 * Factor(true, n)
  {
    var m := ((n - 1) * (n - 2)) as real;
    assert (n - 1) * (n - 2) > 0 by {
      assert n - 1 > 0 && n - 2 > 0;
    }
    assert m > 0.0;
    assert 2.0 / m == 2.0 * (1.0 / m);
  }

  /** `betweenness_centrality` (algoritmos.py:130-178): for every source in
      the iteration order `vorder` of the vertex set, the search and the
      accumulation; then every accumulated value is halved (on directed
      graphs too), and paired with its normalised value. The result names
      exactly the vertices reached from some other vertex (the
      `defaultdict` only gains a key when a vertex is popped for a source
      other than itself), each with half its `Accumulated` total, which is
      nonnegative. */
  method BetweennessCentrality(g: GraphData, vorder: seq<Vertex>, normalize: bool)
    returns (result: map<Vertex, (real, real)>)
    requires Closed(g.adj, g.vertices) && Enumerates(vorder, g.vertices)
    ensures forall x :: x in result <==> x in g.vertices && exists s :: s in g.vertices && s != x && Reaches(g.adj, s, x)
    ensures result.Keys == Accumulated(g, vorder).Keys
    ensures forall x :: x in result ==> result[x].0 == Accumulated(g, vorder)[x] / 2.0 && result[x].0 >= 0.0
    ensures forall x :: x in result ==> result[x].1 == Normalized(result[x].0, g.directed, |g.vertices|, normalize)
  {
    var C: map<Vertex, real> := map[];
    var keys: seq<Vertex> := [];
    var i := 0;
    while i < |vorder|
      invariant i <= |vorder|
      invariant Enumerates(keys, C.Keys)
      invariant forall x :: x in C <==> x in g.vertices && ReachedFrom(g.adj, vorder[..i], x)
      invariant forall x :: x in C ==> C[x] >= 0.0
      invariant C == Accumulated(g, vorder[..i])
    {
      var s := vorder[i];
      var S, P, sigma, d := BrandesSearch(g, s);
      ghost var C1 := C;
      C, keys := Accumulate(g, s, S, P, sigma, C, keys);
      SourceAdded(g, vorder, i, C1, C, S);
      AccumulatedSnoc(g, vorder, i, S, Front([], d, sigma, P));
      i := i + 1;
    }
    assert vorder[..i] == vorder;
    ReachedFromSome(g, vorder, C);
    var halved := Halve(C, keys);
    result := Pair(halved, keys, g.directed, |g.vertices|, normalize);
  }

  /** Processing the source `vorder[i]` after the first `i` adds its drain to
      the running total. */
  lemma AccumulatedSnoc(g: GraphData, vorder: seq<Vertex>, i: nat, S: seq<Vertex>, f: Front)
    requires i < |vorder| && (S, f) == Searched(g, vorder[i])
    ensures Accumulated(g, vorder[..i + 1])
         == Drain(vorder[i], S, f.P, f.sigma, map x | x in g.vertices :: 0.0, Accumulated(g, vorder[..i]))
  {
    assert vorder[..i + 1][..i] == vorder[..i];
  }

  /** After the source `vorder[i]`, the running centrality names the
      vertices reached from one of the first `i + 1` sources. */
  lemma SourceAdded(g: GraphData, vorder: seq<Vertex>, i: nat, C1: map<Vertex, real>, C: map<Vertex, real>, S: seq<Vertex>)
    requires i < |vorder|
    requires forall x :: x in C1 <==> x in g.vertices && ReachedFrom(g.adj, vorder[..i], x)
    requires forall x :: x in S <==> Reaches(g.adj, vorder[i], x)
    requires forall x :: x in S ==> x in g.vertices
    requires forall x :: x in C <==> x in C1 || (x in S && x != vorder[i])
    ensures forall x :: x in C <==> x in g.vertices && ReachedFrom(g.adj, vorder[..i + 1], x)
  {
    assert vorder[..i + 1] == vorder[..i] + [vorder[i]];
    forall x ensures ReachedFrom(g.adj, vorder[..i + 1], x) <==> ReachedFrom(g.adj, vorder[..i], x) || (vorder[i] != x && Reaches(g.adj, vorder[i], x)) {
      ReachedFromSnoc(g.adj, vorder[..i], vorder[i], x);
    }
  }

  /** Reached from some vertex of the iteration order is reached from some
      other vertex of the graph. */
  lemma ReachedFromSome(g: GraphData, vorder: seq<Vertex>, C: map<Vertex, real>)
    requires Enumerates(vorder, g.vertices)
    requires forall x :: x in C <==> x in g.vertices && ReachedFrom(g.adj, vorder, x)
    ensures forall x :: x in C <==> x in g.vertices && exists s :: s in g.vertices && s != x && Reaches(g.adj, s, x)
  {
    forall x ensures ReachedFrom(g.adj, vorder, x) <==> exists s :: s in g.vertices && s != x && Reaches(g.adj, s, x) {
      if ReachedFrom(g.adj, vorder, x) {
        var j :| 0 <= j < |vorder| && vorder[j] != x && Reaches(g.adj, vorder[j], x);
        assert vorder[j] in g.vertices;
      }
      if exists s :: s in g.vertices && s != x && Reaches(g.adj, s, x) {
        var s :| s in g.vertices && s != x && Reaches(g.adj, s, x);
        var j :| 0 <= j < |vorder| && vorder[j] == s;
      }
    }
  }

  /** `for v in centralidade: centralidade[v] /= 2`. */
  method Halve(C0: map<Vertex, real>, keys: seq<Vertex>) returns (C: map<Vertex, real>)
    requires Enumerates(keys, C0.Keys)
    ensures C.Keys == C0.Keys && forall x :: x in C ==> C[x] == C0[x] / 2.0
  {
    C := C0;
    var k := 0;
    while k < |keys|
      invariant k <= |keys| && C.Keys == C0.Keys
      invariant forall x :: x in C ==> C[x] == if x in keys[..k] then C0[x] / 2.0 else C0[x]
    {
      var v := keys[k];
      NotInPrefix(keys[..k + 1]);
      assert keys[..k + 1][..k] == keys[..k];
      assert keys[..k + 1] == keys[..k] + [v];
      C := C[v := C[v] / 2.0];
      k := k + 1;
    }
    assert keys[..k] == keys;
  }

  /** The loop of algoritmos.py:171-176 building `resultado`: each value
      paired with its normalised value. */
  method Pair(C: map<Vertex, real>, keys: seq<Vertex>, directed: bool, n: int, normalize: bool)
    returns (result: map<Vertex, (real, real)>)
    requires Enumerates(keys, C.Keys)
    ensures result.Keys == C.Keys
    ensures forall x :: x in result ==> result[x] == (C[x], Normalized(C[x], directed, n, normalize))
  {
    result := map[];
    var k := 0;
    while k < |keys|
      invariant k <= |keys|
      invariant forall x :: x in result <==> x in keys[..k]
      invariant forall x :: x in result ==> x in C && result[x] == (C[x], Normalized(C[x], directed, n, normalize))
    {
      var v := keys[k];
      assert keys[..k + 1] == keys[..k] + [v];
      if normalize && n > 2 {
        var norm := Factor(directed, n);
        assert C[v] * norm == Normalized(C[v], directed, n, normalize);
        result := result[v := (C[v], C[v] * norm)];
      } else {
        result := result[v := (C[v], C[v])];
      }
      k := k + 1;
    }
    assert keys[..k] == keys;
  }
}
