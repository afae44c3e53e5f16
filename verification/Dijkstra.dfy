/** Shortest path on an adjacency matrix, where 0 means no edge. */
module Dijkstra {

  type Matrix = seq<seq<nat>>

  ghost predicate Square(g: Matrix) {
    forall i :: 0 <= i < |g| ==> |g[i]| == |g|
  }

  /** There is a path of k edges from s to v with total weight w. */
  ghost predicate Path(g: Matrix, s: nat, v: nat, w: nat, k: nat)
    requires Square(g)
    decreases k
  {
    if k == 0 then s == v && w == 0
    else v < |g| && exists u :: 0 <= u < |g| && g[u][v] != 0 && g[u][v] <= w && Path(g, s, u, w - g[u][v], k - 1)
  }

  ghost predicate HasPath(g: Matrix, s: nat, v: nat, w: nat)
    requires Square(g)
  {
    exists k: nat :: Path(g, s, v, w, k)
  }

  /** r is the least weight of a path from s to v, or -1 when there is none. */
  ghost predicate Shortest(g: Matrix, s: nat, v: nat, r: int)
    requires Square(g)
  {
    && (r == -1 <==> forall w: nat :: !HasPath(g, s, v, w))
    && (r != -1 ==> r >= 0 && HasPath(g, s, v, r) && forall w: nat :: HasPath(g, s, v, w) ==> r <= w)
  }

  lemma PathEdge(g: Matrix, s: nat, u: nat, w: nat, v: nat)
    requires Square(g) && u < |g| && v < |g| && g[u][v] != 0 && HasPath(g, s, u, w)
    ensures HasPath(g, s, v, w + g[u][v])
  {
    var k: nat :| Path(g, s, u, w, k);
    assert Path(g, s, v, w + g[u][v], k + 1);
  }

  // ---- what the search keeps --------------------------------------------------------------------

  /** Distances found are weights of paths. */
  ghost predicate Found(g: Matrix, s: nat, d: seq<int>)
    requires Square(g)
  {
    && |d| == |g| && s < |g| && d[s] == 0
    && forall v :: 0 <= v < |d| ==> d[v] == -1 || (d[v] >= 0 && HasPath(g, s, v, d[v]))
  }

  /** Edge u -> v has been taken into account. */
  ghost predicate Relaxed(g: Matrix, d: seq<int>, u: nat, v: nat)
    requires u < |d| == |g| && v < |d| && Square(g)
  {
    g[u][v] != 0 ==> d[v] != -1 && d[v] <= d[u] + g[u][v]
  }

  /** Visited vertices are settled: their edges are relaxed and no other vertex is nearer. */
  ghost predicate Settled(g: Matrix, d: seq<int>, f: seq<bool>)
    requires Square(g)
  {
    && |d| == |f| == |g|
    && (forall u :: 0 <= u < |d| && f[u] ==> d[u] >= 0)
    && (forall u, v :: 0 <= u < |d| && 0 <= v < |d| && f[u] ==> Relaxed(g, d, u, v))
    && (forall u, v :: 0 <= u < |d| && 0 <= v < |d| && f[u] && !f[v] && d[v] != -1 ==> d[u] <= d[v])
  }

  /** c is an unvisited vertex at the least distance. */
  ghost predicate Nearest(d: seq<int>, f: seq<bool>, c: nat) {
    && c < |d| == |f| && !f[c] && d[c] >= 0
    && forall v :: 0 <= v < |d| && !f[v] && d[v] != -1 ==> d[c] <= d[v]
  }

  /** A path is at least as long as the distance found for its end, or as some unvisited vertex on the way. */
  lemma {:induction false} PathCrosses(g: Matrix, s: nat, d: seq<int>, f: seq<bool>, v: nat, w: nat, k: nat)
    returns (x: nat)
    requires Square(g) && Found(g, s, d) && Settled(g, d, f) && v < |g| && Path(g, s, v, w, k)
    ensures x < |d| && d[x] != -1 && d[x] <= w && (x == v || !f[x])
    decreases k
  {
    if k == 0 {
      x := s;
    } else {
      var u :| 0 <= u < |g| && g[u][v] != 0 && g[u][v] <= w && Path(g, s, u, w - g[u][v], k - 1);
      x := PathCrosses(g, s, d, f, u, w - g[u][v], k - 1);
      if f[x] {
        assert x == u && Relaxed(g, d, u, v);
        x := v;
      }
    }
  }

  /** When the target is the nearest unvisited vertex, its distance is final. */
  lemma TargetFinal(g: Matrix, s: nat, d: seq<int>, f: seq<bool>, e: nat)
    requires Square(g) && Found(g, s, d) && Settled(g, d, f) && Nearest(d, f, e)
    ensures Shortest(g, s, e, d[e])
  {
    forall w: nat | HasPath(g, s, e, w) ensures d[e] <= w {
      var k: nat :| Path(g, s, e, w, k);
      var x := PathCrosses(g, s, d, f, e, w, k);
    }
    assert HasPath(g, s, e, d[e]);
  }

  /** When no unvisited vertex has been reached, all distances are final. */
  lemma AllFinal(g: Matrix, s: nat, d: seq<int>, f: seq<bool>, e: nat)
    requires Square(g) && Found(g, s, d) && Settled(g, d, f) && e < |g|
    requires forall v :: 0 <= v < |d| && !f[v] ==> d[v] == -1
    ensures Shortest(g, s, e, d[e])
  {
    forall w: nat | HasPath(g, s, e, w) ensures d[e] != -1 && d[e] <= w {
      var k: nat :| Path(g, s, e, w, k);
      var x := PathCrosses(g, s, d, f, e, w, k);
    }
    if d[e] != -1 {
      assert HasPath(g, s, e, d[e]);
    }
  }

  // ---- the algorithm ----------------------------------------------------------------------------

  /** Relaxes every edge out of c: no distance grows, none of a vertex nearer than c changes. */
  method RelaxFrom(g: Matrix, s: nat, c: nat, d: array<int>)
    requires Square(g) && d.Length == |g| && c < |g| && d[c] >= 0 && Found(g, s, d[..])
    modifies d
    ensures Found(g, s, d[..])
    ensures forall v :: 0 <= v < d.Length ==> Relaxed(g, d[..], c, v)
    ensures forall v :: 0 <= v < d.Length ==>
      d[v] == old(d[v]) || (d[v] >= d[c] && (old(d[v]) == -1 || d[v] < old(d[v])))
    ensures d[c] == old(d[c])
  {
    for i := 0 to d.Length
      invariant Found(g, s, d[..]) && d[c] == old(d[c])
      invariant forall v :: 0 <= v < i && g[c][v] != 0 ==> d[v] != -1 && d[v] <= d[c] + g[c][v]
      invariant forall v :: 0 <= v < d.Length ==>
        d[v] == old(d[v]) || (d[v] >= d[c] && (old(d[v]) == -1 || d[v] < old(d[v])))
      invariant forall v :: i <= v < d.Length ==> d[v] == old(d[v])
    {
      if g[c][i] != 0 {
        if d[i] == -1 || d[c] + g[c][i] < d[i] {
          PathEdge(g, s, c, d[c], i);
          d[i] := d[c] + g[c][i];
        }
      }
    }
  }

  /** The nearest unvisited vertex, if any has been reached. */
  method FindNext(d: array<int>, f: array<bool>, current: nat) returns (next: int, c: nat)
    requires d.Length == f.Length && forall v :: 0 <= v < d.Length ==> d[v] >= -1
    ensures next == -1 ==> forall v :: 0 <= v < d.Length && !f[v] ==> d[v] == -1
    ensures next != -1 ==> Nearest(d[..], f[..], c) && next == d[c]
  {
    next, c := -1, current;
    for i := 0 to d.Length
      invariant next == -1 ==> forall v :: 0 <= v < i && !f[v] ==> d[v] == -1
      invariant next != -1 ==>
        c < d.Length && !f[c] && next == d[c] >= 0 && forall v :: 0 <= v < i && !f[v] && d[v] != -1 ==> d[c] <= d[v]
    {
      if !f[i] {
        if d[i] != -1 && (next == -1 || d[i] < next) {
          next, c := d[i], i;
        }
      }
    }
  }

  /** Before the first visit only the source is known. */
  lemma Start(g: Matrix, s: nat, d: seq<int>, f: seq<bool>)
    requires Square(g) && s < |g| == |d| == |f| && d[s] == 0 && forall v :: 0 <= v < |f| ==> !f[v]
    requires forall v :: 0 <= v < |d| && v != s ==> d[v] == -1
    ensures Found(g, s, d) && Settled(g, d, f) && Nearest(d, f, s)
  {
    assert Path(g, s, s, 0, 0);
  }

  /** Visiting the nearest vertex settles it. */
  lemma VisitSettles(g: Matrix, s: nat, c: nat, d0: seq<int>, f0: seq<bool>, d: seq<int>)
    requires Square(g) && Found(g, s, d0) && Settled(g, d0, f0) && Nearest(d0, f0, c) && Found(g, s, d)
    requires forall v :: 0 <= v < |d| ==> Relaxed(g, d, c, v)
    requires forall v :: 0 <= v < |d| ==> d[v] == d0[v] || (d[v] >= d[c] && (d0[v] == -1 || d[v] < d0[v]))
    requires d[c] == d0[c]
    ensures Settled(g, d, f0[c := true])
  {
    var f := f0[c := true];
    forall u, v | 0 <= u < |d| && 0 <= v < |d| && f[u] ensures Relaxed(g, d, u, v) {
      if u != c {
        assert Relaxed(g, d0, u, v) && d[u] == d0[u];
      }
    }
  }

  ghost function Unvisited(f: seq<bool>): (r: set<int>) {
    set i | 0 <= i < |f| && !f[i]
  }

  method ShortestPath(g: Matrix, s: nat, e: nat) returns (r: int)
    requires Square(g) && s < |g| && e < |g|
    ensures Shortest(g, s, e, r)
  {
    var n := |g|;
    var d := new int[n](i => -1);
    var f := new bool[n](i => false);
    d[s] := 0;
    Start(g, s, d[..], f[..]);
    hide Found, Settled, Nearest, Shortest, Relaxed;
    var current := s;
    while current != e
      invariant Found(g, s, d[..]) && Settled(g, d[..], f[..]) && Nearest(d[..], f[..], current)
      decreases Unvisited(f[..])
    {
      ghost var d0, f0 := d[..], f[..];
      f[current] := true;
      assert f[..] == f0[current := true] && current in Unvisited(f0);
      RelaxFrom(g, s, current, d);
      VisitSettles(g, s, current, d0, f0, d[..]);
      var next, c := FindNext(d, f, current);
      if next == -1 {
        AllFinal(g, s, d[..], f[..], e);
        return d[e];
      }
      current := c;
    }
    TargetFinal(g, s, d[..], f[..], e);
    r := d[e];
  }
}
