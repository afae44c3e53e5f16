/** Reachability in a directed graph given by its successor sets. */
module Reachability {

  type Graph<N> = map<N, set<N>>

  /** Every edge leads to a node of the graph. */
  ghost predicate Closed<N>(g: Graph<N>) {
    forall a, b :: a in g && b in g[a] ==> b in g
  }

  /** There is a walk of exactly k edges from a to b. */
  ghost predicate Walk<N>(g: Graph<N>, a: N, b: N, k: nat)
    decreases k
  {
    if k == 0 then a == b
    else a in g && exists x :: x in g[a] && Walk(g, x, b, k - 1)
  }

  ghost predicate Reach<N>(g: Graph<N>, a: N, b: N) {
    exists k: nat :: Walk(g, a, b, k)
  }

  /** a and b lie on a common cycle, or are the same node. */
  ghost predicate SameScc<N>(g: Graph<N>, a: N, b: N) {
    Reach(g, a, b) && Reach(g, b, a)
  }

  lemma ReachRefl<N>(g: Graph<N>, a: N)
    ensures Reach(g, a, a)
  {
    assert Walk(g, a, a, 0);
  }

  lemma ReachEdge<N>(g: Graph<N>, a: N, b: N)
    requires a in g && b in g[a]
    ensures Reach(g, a, b)
  {
    assert Walk(g, b, b, 0);
    assert Walk(g, a, b, 1);
  }

  lemma {:induction false} WalkTrans<N>(g: Graph<N>, a: N, b: N, c: N, j: nat, k: nat)
    requires Walk(g, a, b, j) && Walk(g, b, c, k)
    ensures Walk(g, a, c, j + k)
    decreases j
  {
    if j > 0 {
      var x :| x in g[a] && Walk(g, x, b, j - 1);
      WalkTrans(g, x, b, c, j - 1, k);
    }
  }

  lemma ReachTrans<N>(g: Graph<N>, a: N, b: N, c: N)
    requires Reach(g, a, b) && Reach(g, b, c)
    ensures Reach(g, a, c)
  {
    var j: nat :| Walk(g, a, b, j);
    var k: nat :| Walk(g, b, c, k);
    WalkTrans(g, a, b, c, j, k);
  }

  /** A rank that never rises along an edge never rises along a walk. */
  lemma {:induction false} WalkRank<N>(g: Graph<N>, rank: map<N, nat>, a: N, b: N, k: nat)
    requires a in rank && Walk(g, a, b, k)
    requires forall n, x :: n in rank && n in g && x in g[n] ==> x in rank && rank[x] <= rank[n]
    ensures b in rank && rank[b] <= rank[a]
    decreases k
  {
    if k > 0 {
      var x :| x in g[a] && Walk(g, x, b, k - 1);
      WalkRank(g, rank, x, b, k - 1);
    }
  }
}
