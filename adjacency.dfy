/** Adjacency lists of the graph store (`lista_adj` in grafo.py): the values
    they hold and the list-level edits that `adicionar_aresta` performs. */
module Adjacency {

  /** A vertex is an actor or director name, already normalised by the loader. */
  type Vertex = string

  /** One `(viz, peso)` entry of an adjacency list. */
  datatype Entry = Entry(nbr: Vertex, weight: int)

  type AdjMap = map<Vertex, seq<Entry>>

  /** `lista_adj.get(u, [])`: the list of `u`, or the empty list when `u` has no key. */
  function AdjOf(adj: AdjMap, u: Vertex): seq<Entry>
  {
    if u in adj then adj[u] else []
  }

  /** The neighbours named by the entries of `l`. */
  function Nbrs(l: seq<Entry>): set<Vertex>
  {
    set e | e in l :: e.nbr
  }

  /** No neighbour occurs twice in `l`. */
  ghost predicate DistinctNbrs(l: seq<Entry>)
  {
    forall i, j :: 0 <= i < j < |l| ==> l[i].nbr != l[j].nbr
  }

  /** Every key of `adj` and every neighbour it names belongs to `vertices`. */
  ghost predicate Closed(adj: AdjMap, vertices: set<Vertex>)
  {
    forall u | u in adj :: u in vertices && Nbrs(adj[u]) <= vertices
  }

  /** Total weight that `l` records towards `b`: the weight of its entry for `b`
      when neighbours are distinct, 0 when it has none. */
  function WeightOf(l: seq<Entry>, b: Vertex): int
  {
    if l == [] then 0
    else WeightOf(l[..|l| - 1], b) + (if l[|l| - 1].nbr == b then l[|l| - 1].weight else 0)
  }

  /** Number of entries of `l` that point at `b`. */
  function CountNbr(l: seq<Entry>, b: Vertex): nat
  {
    if l == [] then 0
    else CountNbr(l[..|l| - 1], b) + (if l[|l| - 1].nbr == b then 1 else 0)
  }

  /** Position of the first entry of `l` for `v`: where the scan of
      grafo.py:84-85 stops. */
  function FirstIndex(l: seq<Entry>, v: Vertex): (i: nat)
    requires v in Nbrs(l)
    ensures i < |l| && l[i].nbr == v
    ensures forall j :: 0 <= j < i ==> l[j].nbr != v
  {
    if l[0].nbr == v then 0
    else
      assert v in Nbrs(l[1..]) by {
        var e :| e in l && e.nbr == v;
        var k :| 0 <= k < |l| && l[k] == e;
        assert l[1..][k - 1] == e;
      }
      FirstIndex(l[1..], v) + 1
  }

  /** The list after `l[idx] = (viz, peso_atual + peso)` (grafo.py:86). */
  function Bump(l: seq<Entry>, i: nat, p: int): (r: seq<Entry>)
    requires i < |l|
  {
    l[i := Entry(l[i].nbr, l[i].weight + p)]
  }

  /** The list after the loop of grafo.py:88-90: every entry for `u` gains `p`. */
  function BumpAll(l: seq<Entry>, u: Vertex, p: int): (r: seq<Entry>)
  {
    seq(|l|, k requires 0 <= k < |l| => if l[k].nbr == u then Entry(u, l[k].weight + p) else l[k])
  }

  lemma NbrsAppend(l: seq<Entry>, e: Entry)
    ensures Nbrs(l + [e]) == Nbrs(l) + {e.nbr}
  {
    forall x | x in Nbrs(l) ensures x in Nbrs(l + [e]) {
      var f :| f in l && f.nbr == x;
      assert f in l + [e];
    }
    assert e in l + [e];
  }

  lemma NbrsBump(l: seq<Entry>, i: nat, p: int)
    requires i < |l|
    ensures Nbrs(Bump(l, i, p)) == Nbrs(l)
    ensures DistinctNbrs(l) ==> DistinctNbrs(Bump(l, i, p))
  {
    var r := Bump(l, i, p);
    forall x | x in Nbrs(l) ensures x in Nbrs(r) {
      var k :| 0 <= k < |l| && l[k].nbr == x;
      assert r[k].nbr == x;
    }
    forall x | x in Nbrs(r) ensures x in Nbrs(l) {
      var k :| 0 <= k < |r| && r[k].nbr == x;
      assert l[k].nbr == x;
    }
  }

  lemma NbrsBumpAll(l: seq<Entry>, u: Vertex, p: int)
    ensures |BumpAll(l, u, p)| == |l|
    ensures Nbrs(BumpAll(l, u, p)) == Nbrs(l)
    ensures DistinctNbrs(l) ==> DistinctNbrs(BumpAll(l, u, p))
  {
    var r := BumpAll(l, u, p);
    forall x | x in Nbrs(l) ensures x in Nbrs(r) {
      var k :| 0 <= k < |l| && l[k].nbr == x;
      assert r[k].nbr == x;
    }
    forall x | x in Nbrs(r) ensures x in Nbrs(l) {
      var k :| 0 <= k < |r| && r[k].nbr == x;
      assert l[k].nbr == x;
    }
  }

  /** With distinct neighbours, `b` occurs once when it is a neighbour and never otherwise. */
  lemma {:induction false} CountDistinct(l: seq<Entry>, b: Vertex)
    requires DistinctNbrs(l)
    ensures CountNbr(l, b) == if b in Nbrs(l) then 1 else 0
  {
    if l != [] {
      var init, last := l[..|l| - 1], l[|l| - 1];
      assert l == init + [last];
      CountDistinct(init, b);
      NbrsAppend(init, last);
    }
  }

  /** A list that does not name `b` records no weight towards it. */
  lemma {:induction false} WeightAbsent(l: seq<Entry>, b: Vertex)
    requires b !in Nbrs(l)
    ensures WeightOf(l, b) == 0
  {
    if l != [] {
      var init := l[..|l| - 1];
      assert l == init + [l[|l| - 1]];
      NbrsAppend(init, l[|l| - 1]);
      WeightAbsent(init, b);
    }
  }

  lemma WeightAppend(l: seq<Entry>, e: Entry, b: Vertex)
    ensures WeightOf(l + [e], b) == WeightOf(l, b) + (if e.nbr == b then e.weight else 0)
  {
    assert (l + [e])[..|l|] == l;
  }

  /** Raising one entry by `p` raises the weight towards its neighbour by `p`. */
  lemma {:induction false} WeightBump(l: seq<Entry>, i: nat, p: int, b: Vertex)
    requires i < |l|
    ensures WeightOf(Bump(l, i, p), b) == WeightOf(l, b) + (if l[i].nbr == b then p else 0)
  {
    var r := Bump(l, i, p);
    var n := |l| - 1;
    if i == n {
      assert r[..n] == l[..n];
    } else {
      assert r[..n] == Bump(l[..n], i, p);
      WeightBump(l[..n], i, p, b);
    }
  }

  /** Raising every entry for `u` by `p` raises the weight towards `u` by `p` per entry. */
  lemma {:induction false} WeightBumpAll(l: seq<Entry>, u: Vertex, p: int, b: Vertex)
    ensures WeightOf(BumpAll(l, u, p), b) == WeightOf(l, b) + (if b == u then p * CountNbr(l, u) else 0)
  {
    if l != [] {
      var n := |l| - 1;
      var r := BumpAll(l, u, p);
      assert r[..n] == BumpAll(l[..n], u, p);
      WeightBumpAll(l[..n], u, p, b);
      assert WeightOf(r, b) == WeightOf(r[..n], b) + (if r[n].nbr == b then r[n].weight else 0);
      if l[n].nbr == u {
        assert p * (CountNbr(l[..n], u) + 1) == p * CountNbr(l[..n], u) + p;
      }
    }
  }

  /** The entries of a list with distinct neighbours after `Bump`. */
  lemma EntriesBump(l: seq<Entry>, i: nat, p: int, x: Vertex, w: int)
    requires i < |l| && DistinctNbrs(l)
    ensures Entry(x, w) in Bump(l, i, p) <==>
      (x != l[i].nbr && Entry(x, w) in l) || (x == l[i].nbr && w == l[i].weight + p)
  {
    var r := Bump(l, i, p);
    if Entry(x, w) in r {
      var k :| 0 <= k < |r| && r[k] == Entry(x, w);
      if k != i { assert l[k] == Entry(x, w); }
    }
    if x != l[i].nbr && Entry(x, w) in l {
      var k :| 0 <= k < |l| && l[k] == Entry(x, w);
      assert r[k] == Entry(x, w);
    }
    if x == l[i].nbr && w == l[i].weight + p {
      assert r[i] == Entry(x, w);
    }
  }

  /** The entries of a list with distinct neighbours after `BumpAll`. */
  lemma EntriesBumpAll(l: seq<Entry>, u: Vertex, p: int, x: Vertex, w: int)
    ensures Entry(x, w) in BumpAll(l, u, p) <==>
      (x != u && Entry(x, w) in l) || (x == u && Entry(u, w - p) in l)
  {
    var r := BumpAll(l, u, p);
    if Entry(x, w) in r {
      var k :| 0 <= k < |r| && r[k] == Entry(x, w);
      assert l[k] == if x == u then Entry(u, w - p) else Entry(x, w);
    }
    if x != u && Entry(x, w) in l {
      var k :| 0 <= k < |l| && l[k] == Entry(x, w);
      assert r[k] == Entry(x, w);
    }
    if x == u && Entry(u, w - p) in l {
      var k :| 0 <= k < |l| && l[k] == Entry(u, w - p);
      assert r[k] == Entry(x, w);
    }
  }

  /** With distinct neighbours, an entry for `x` fixes the weight of every entry for `x`. */
  lemma EntryUnique(l: seq<Entry>, x: Vertex, w1: int, w2: int)
    requires DistinctNbrs(l) && Entry(x, w1) in l && Entry(x, w2) in l
    ensures w1 == w2
  {
    var i :| 0 <= i < |l| && l[i] == Entry(x, w1);
    var j :| 0 <= j < |l| && l[j] == Entry(x, w2);
    assert !(i < j) && !(j < i);
  }

  lemma EntryNbr(l: seq<Entry>, x: Vertex, w: int)
    requires Entry(x, w) in l
    ensures x in Nbrs(l)
  {
  }

  /** Some entry names every neighbour. */
  lemma NbrEntry(l: seq<Entry>, x: Vertex) returns (w: int)
    requires x in Nbrs(l)
    ensures Entry(x, w) in l
  {
    var e :| e in l && e.nbr == x;
    w := e.weight;
  }

  lemma DistinctAppend(l: seq<Entry>, e: Entry)
    requires DistinctNbrs(l) && e.nbr !in Nbrs(l)
    ensures DistinctNbrs(l + [e])
  {
    var r := l + [e];
    forall i, j | 0 <= i < j < |r| ensures r[i].nbr != r[j].nbr {
      if j == |l| { assert r[i] in l; }
    }
  }
}
