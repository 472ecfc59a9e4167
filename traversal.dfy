/** Vocabulary shared by the analysis algorithms of algoritmos.py: iteration
    orders, concatenated result lists, and reachability along adjacency entries. */
module Traversal {
  import opened Adjacency

  /** No element occurs twice. */
  predicate Distinct<T(==)>(s: seq<T>)
  {
    forall i, j :: 0 <= i < j < |s| ==> s[i] != s[j]
  }

  /** `order` lists every element of `vs` once: one iteration order of a Python set. */
  ghost predicate Enumerates(order: seq<Vertex>, vs: set<Vertex>)
  {
    Distinct(order) && (forall x :: x in order <==> x in vs)
  }

  /** The lists of `comps`, one after the other. */
  function Flatten<T>(comps: seq<seq<T>>): seq<T>
  {
    if comps == [] then [] else Flatten(comps[..|comps| - 1]) + comps[|comps| - 1]
  }

  lemma FlattenSnoc<T>(comps: seq<seq<T>>, c: seq<T>)
    ensures Flatten(comps + [c]) == Flatten(comps) + c
  {
    assert (comps + [c])[..|comps|] == comps;
  }

  lemma {:induction false} FlattenMember<T>(comps: seq<seq<T>>, x: T)
    ensures x in Flatten(comps) <==> exists k :: 0 <= k < |comps| && x in comps[k]
  {
    if comps != [] {
      var n := |comps| - 1;
      FlattenMember(comps[..n], x);
      if exists k :: 0 <= k < |comps| && x in comps[k] {
        var k :| 0 <= k < |comps| && x in comps[k];
        if k < n { assert comps[..n][k] == comps[k]; }
      }
      if exists k :: 0 <= k < n && x in comps[..n][k] {
        var k :| 0 <= k < n && x in comps[..n][k];
        assert comps[k] == comps[..n][k];
      }
    }
  }

  /** The lists of a prefix of `comps` come first in `Flatten(comps)`. */
  lemma {:induction false} FlattenPrefix<T>(comps: seq<seq<T>>, m: nat)
    requires m <= |comps|
    ensures Flatten(comps[..m]) <= Flatten(comps)
  {
    if m < |comps| {
      var n := |comps| - 1;
      assert comps[..n][..m] == comps[..m];
      FlattenPrefix(comps[..n], m);
    } else {
      assert comps[..m] == comps;
    }
  }

  /** In a duplicate-free concatenation, no element lies in two different lists. */
  lemma FlattenDisjoint<T>(comps: seq<seq<T>>, a: nat, b: nat, x: T)
    requires Distinct(Flatten(comps)) && a < b < |comps| && x in comps[a]
    ensures x !in comps[b]
  {
    FlattenSplit(comps, a, b, x);
    DistinctSplit(Flatten(comps[..b]), comps[b], x);
  }

  /** The lists before `b`, then list `b`, form a prefix of the concatenation. */
  lemma FlattenSplit<T>(comps: seq<seq<T>>, a: nat, b: nat, x: T)
    requires Distinct(Flatten(comps)) && a < b < |comps| && x in comps[a]
    ensures x in Flatten(comps[..b]) && Distinct(Flatten(comps[..b]) + comps[b])
  {
    FlattenHas(comps, a, b, x);
    FlattenRowPrefix(comps, b);
    DistinctPrefix(Flatten(comps[..b]) + comps[b], Flatten(comps));
  }

  lemma FlattenHas<T>(comps: seq<seq<T>>, a: nat, b: nat, x: T)
    requires a < b <= |comps| && x in comps[a]
    ensures x in Flatten(comps[..b])
  {
    FlattenMember(comps[..b], x);
    assert comps[..b][a] == comps[a];
  }

  lemma FlattenRowPrefix<T>(comps: seq<seq<T>>, b: nat)
    requires b < |comps|
    ensures Flatten(comps[..b]) + comps[b] <= Flatten(comps)
  {
    FlattenTake(comps, b + 1);
    FlattenPrefix(comps, b + 1);
  }

  /** The concatenation of the first `m` lists ends with list `m - 1`. */
  lemma FlattenTake<T>(comps: seq<seq<T>>, m: nat)
    requires 0 < m <= |comps|
    ensures Flatten(comps[..m]) == Flatten(comps[..m - 1]) + comps[m - 1]
  {
    var front := comps[..m];
    assert front[..m - 1] == comps[..m - 1];
  }

  /** Adding new members to a subset of `a` shrinks what is left of `a`. */
  lemma DiffShrinks<T>(a: set<T>, k0: set<T>, k: set<T>)
    requires k0 <= k <= a && k != k0
    ensures a - k < a - k0
  {
    var x :| x in k && x !in k0;
    assert x in a - k0;
  }

  lemma DistinctPrefix<T>(s: seq<T>, t: seq<T>)
    requires s <= t && Distinct(t)
    ensures Distinct(s)
  {
    forall i, j | 0 <= i < j < |s| ensures s[i] != s[j] {
      assert s[i] == t[i] && s[j] == t[j];
    }
  }

  lemma DistinctSplit<T>(s: seq<T>, t: seq<T>, x: T)
    requires Distinct(s + t) && x in s
    ensures x !in t
  {
    var i :| 0 <= i < |s| && s[i] == x;
    forall j | 0 <= j < |t| ensures t[j] != x {
      assert (s + t)[i] == x && (s + t)[|s| + j] == t[j];
    }
  }

  lemma DistinctAppend<T>(s: seq<T>, t: seq<T>)
    requires Distinct(s) && Distinct(t) && forall x :: x in s ==> x !in t
    ensures Distinct(s + t)
  {
    var r := s + t;
    forall i, j | 0 <= i < j < |r| ensures r[i] != r[j] {
      if i < |s| && j >= |s| {
        assert r[i] in s && r[j] == t[j - |s|];
      }
    }
  }

  /** The last element of a duplicate-free sequence is not among the others. */
  lemma NotInPrefix<T>(s: seq<T>)
    requires Distinct(s) && s != []
    ensures s[|s| - 1] !in s[..|s| - 1]
  {
    var t := s[..|s| - 1];
    forall i | 0 <= i < |t| ensures t[i] != s[|s| - 1] {
      assert t[i] == s[i];
    }
  }

  /** Taking one more element of `s`. */
  lemma TakeSnoc<T>(s: seq<T>, n: nat)
    requires n < |s|
    ensures s[..n + 1] == s[..n] + [s[n]]
  {
  }

  /** Extending a sequence keeps its first `n` elements. */
  lemma TakeExtended<T>(s: seq<T>, t: seq<T>, n: nat)
    requires s <= t && n <= |s|
    ensures t[..n] == s[..n]
  {
  }

  /** Appending to `s` appends to each of its tails. */
  lemma DropSnoc<T>(s: seq<T>, x: T, n: nat)
    requires n <= |s|
    ensures (s + [x])[n..] == s[n..] + [x]
  {
  }

  /** A distinct sequence drawn from `vs` has at most `|vs|` elements. */
  lemma {:induction false} DistinctBound<T>(s: seq<T>, vs: set<T>)
    requires Distinct(s) && forall x :: x in s ==> x in vs
    ensures |s| <= |vs|
  {
    if s != [] {
      var last := s[|s| - 1];
      var init := s[..|s| - 1];
      forall x | x in init ensures x in vs - {last} {
        var i :| 0 <= i < |init| && init[i] == x;
        assert s[i] == x;
      }
      DistinctBound(init, vs - {last});
    }
  }

  /** `p` follows adjacency entries from its first vertex to its last. */
  ghost predicate IsPath(adj: AdjMap, p: seq<Vertex>)
  {
    |p| >= 1 && forall i :: 0 <= i < |p| - 1 ==> p[i + 1] in Nbrs(AdjOf(adj, p[i]))
  }

  /** Some path leads from `a` to `b` (possibly the empty one, when `a == b`). */
  ghost predicate Reaches(adj: AdjMap, a: Vertex, b: Vertex)
  {
    exists p :: IsPath(adj, p) && p[0] == a && p[|p| - 1] == b
  }

  lemma ReachesRefl(adj: AdjMap, a: Vertex)
    ensures Reaches(adj, a, a)
  {
    assert IsPath(adj, [a]);
  }

  /** A reachable vertex's neighbours are reachable. */
  lemma ReachesStep(adj: AdjMap, a: Vertex, b: Vertex, c: Vertex)
    requires Reaches(adj, a, b) && c in Nbrs(AdjOf(adj, b))
    ensures Reaches(adj, a, c)
  {
    var p :| IsPath(adj, p) && p[0] == a && p[|p| - 1] == b;
    var q := p + [c];
    assert IsPath(adj, q);
    assert q[0] == a && q[|q| - 1] == c;
  }

  /** An entry is a path of one step. */
  lemma ReachesEdge(adj: AdjMap, a: Vertex, b: Vertex)
    requires b in Nbrs(AdjOf(adj, a))
    ensures Reaches(adj, a, b)
  {
    ReachesRefl(adj, a);
    ReachesStep(adj, a, a, b);
  }

  lemma ReachesTrans(adj: AdjMap, a: Vertex, b: Vertex, c: Vertex)
    requires Reaches(adj, a, b) && Reaches(adj, b, c)
    ensures Reaches(adj, a, c)
  {
    var p :| IsPath(adj, p) && p[0] == a && p[|p| - 1] == b;
    var q :| IsPath(adj, q) && q[0] == b && q[|q| - 1] == c;
    var r := p + q[1..];
    forall i | 0 <= i < |r| - 1 ensures r[i + 1] in Nbrs(AdjOf(adj, r[i])) {
      if i < |p| - 1 {
        assert r[i] == p[i] && r[i + 1] == p[i + 1];
      } else {
        assert r[i] == q[i - |p| + 1] && r[i + 1] == q[i - |p| + 2];
      }
    }
    assert IsPath(adj, r);
    assert r[|r| - 1] == c by {
      if |q| == 1 { assert r == p; } else { assert r[|r| - 1] == q[|q| - 1]; }
    }
  }

  /** Any stretch of a path is a route between its two ends. */
  lemma PathReaches(adj: AdjMap, p: seq<Vertex>, i: nat, j: nat)
    requires IsPath(adj, p) && i <= j < |p|
    ensures Reaches(adj, p[i], p[j])
  {
    var q := p[i..j + 1];
    forall k | 0 <= k < |q| - 1 ensures q[k + 1] in Nbrs(AdjOf(adj, q[k])) {
      assert q[k] == p[i + k] && q[k + 1] == p[i + k + 1];
    }
    assert IsPath(adj, q) && q[0] == p[i] && q[|q| - 1] == p[j];
  }

  /** When every vertex of `s` lists only members of `s`, nothing outside `s` is
      reachable from inside. */
  lemma ClosedReach(adj: AdjMap, s: set<Vertex>, a: Vertex, b: Vertex)
    requires a in s && Reaches(adj, a, b)
    requires forall x, y :: x in s && y in Nbrs(AdjOf(adj, x)) ==> y in s
    ensures b in s
  {
    var p :| IsPath(adj, p) && p[0] == a && p[|p| - 1] == b;
    var i := 0;
    while i < |p| - 1
      invariant 0 <= i <= |p| - 1 && p[i] in s
    {
      assert p[i + 1] in Nbrs(AdjOf(adj, p[i]));
      i := i + 1;
    }
  }
}
