/** Labelled graphs of NFA states and the words read along their paths. */
module RegexPaths {
  import opened RegexLanguage

  datatype Edge<N> = Edge(epsilon: bool, ch: Letter, next: N)

  type Nfa<N> = map<N, set<Edge<N>>>

  /** A path of k edges from a to b reads w. */
  ghost predicate Path<N>(g: Nfa<N>, a: N, w: string, b: N, k: nat)
    decreases k
  {
    if k == 0 then w == [] && a == b
    else a in g && exists e :: e in g[a] && Take(g, e, w, b, k)
  }

  /** The path starts with edge e. */
  ghost predicate Take<N>(g: Nfa<N>, e: Edge<N>, w: string, b: N, k: nat)
    requires k > 0
    decreases k, 0
  {
    if e.epsilon then Path(g, e.next, w, b, k - 1)
    else w != [] && w[0] == e.ch && Path(g, e.next, w[1..], b, k - 1)
  }

  ghost predicate Reads<N>(g: Nfa<N>, a: N, w: string, b: N) {
    exists k: nat :: Path(g, a, w, b, k)
  }

  lemma ReadsNothing<N>(g: Nfa<N>, a: N)
    ensures Reads(g, a, [], a)
  {
    assert Path(g, a, [], a, 0);
  }

  lemma FirstEdge<N>(g: Nfa<N>, a: N, w: string, b: N, k: nat) returns (e: Edge<N>)
    requires Path(g, a, w, b, k) && k > 0
    ensures a in g && e in g[a] && Take(g, e, w, b, k)
  {
    e :| e in g[a] && Take(g, e, w, b, k);
  }

  lemma {:induction false} PathCat<N>(g: Nfa<N>, a: N, u: string, b: N, v: string, c: N, j: nat, k: nat)
    requires Path(g, a, u, b, j) && Path(g, b, v, c, k)
    ensures Path(g, a, u + v, c, j + k)
    decreases j
  {
    if j == 0 {
      assert u + v == v;
    } else {
      var e := FirstEdge(g, a, u, b, j);
      if e.epsilon {
        PathCat(g, e.next, u, b, v, c, j - 1, k);
      } else {
        PathCat(g, e.next, u[1..], b, v, c, j - 1, k);
        assert (u + v)[1..] == u[1..] + v;
      }
      assert Take(g, e, u + v, c, j + k);
    }
  }

  lemma ReadsCat<N>(g: Nfa<N>, a: N, u: string, b: N, v: string, c: N)
    requires Reads(g, a, u, b) && Reads(g, b, v, c)
    ensures Reads(g, a, u + v, c)
  {
    var j: nat :| Path(g, a, u, b, j);
    var k: nat :| Path(g, b, v, c, k);
    PathCat(g, a, u, b, v, c, j, k);
  }

  lemma ReadsEdge<N>(g: Nfa<N>, a: N, e: Edge<N>)
    requires a in g && e in g[a]
    ensures Reads(g, a, if e.epsilon then [] else [e.ch], e.next)
  {
    var w := if e.epsilon then [] else [e.ch];
    assert Path(g, e.next, [], e.next, 0);
    assert Take(g, e, w, e.next, 1);
    assert Path(g, a, w, e.next, 1);
  }

  /** Reading continues after an edge. */
  lemma ReadsAfter<N>(g: Nfa<N>, a: N, e: Edge<N>, w: string, b: N)
    requires a in g && e in g[a] && Reads(g, e.next, w, b)
    ensures Reads(g, a, if e.epsilon then w else [e.ch] + w, b)
  {
    ReadsEdge(g, a, e);
    ReadsCat(g, a, if e.epsilon then [] else [e.ch], e.next, w, b);
    assert [] + w == w;
  }

  /** Graph h keeps, inside s, every edge that g has there (apart from edges out of `stop`, which g does not have). */
  lemma {:induction false} PathEmbeds<N>(g: Nfa<N>, h: Nfa<N>, a: N, w: string, stop: N, k: nat)
    requires Path(g, a, w, stop, k)
    requires forall n :: n in g && n != stop ==> n in h && g[n] <= h[n]
    requires stop in g ==> g[stop] == {}
    ensures Path(h, a, w, stop, k)
    decreases k
  {
    if k > 0 {
      var e := FirstEdge(g, a, w, stop, k);
      if e.epsilon {
        PathEmbeds(g, h, e.next, w, stop, k - 1);
      } else {
        PathEmbeds(g, h, e.next, w[1..], stop, k - 1);
      }
      assert Take(h, e, w, stop, k);
    }
  }

  lemma ReadsEmbeds<N>(g: Nfa<N>, h: Nfa<N>, a: N, w: string, stop: N)
    requires Reads(g, a, w, stop)
    requires forall n :: n in g && n != stop ==> n in h && g[n] <= h[n]
    requires stop in g ==> g[stop] == {}
    ensures Reads(h, a, w, stop)
  {
    var k: nat :| Path(g, a, w, stop, k);
    PathEmbeds(g, h, a, w, stop, k);
  }
}
