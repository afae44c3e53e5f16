/** The marks of the strongly-connected-component search, as values, and what each of its moves keeps. */
module SccMarks {
  import opened Reachability

  /** dfn and low of every node, the nodes on the search stack, and the component number of every finished node. */
  datatype Marks<N> = Marks(cnt: nat, dfn: map<N, nat>, low: map<N, nat>, onstk: set<N>, comp: map<N, nat>, comps: nat)

  ghost predicate Numbered<N>(g: Graph<N>, cnt: nat, dfn: map<N, nat>, onstk: set<N>, comp: map<N, nat>) {
    && dfn.Keys == g.Keys && onstk <= g.Keys && comp.Keys <= g.Keys && onstk !! comp.Keys
    && (forall n :: n in dfn ==> dfn[n] <= cnt)
    && (forall n :: n in dfn ==> (dfn[n] > 0 <==> n in onstk || n in comp))
    && (forall a, b :: a in onstk && b in onstk && a in dfn && b in dfn && dfn[a] == dfn[b] ==> a == b)
  }

  /** Finished nodes only lead to finished nodes, never to a later component, and components are strongly connected. */
  ghost predicate Finished<N>(g: Graph<N>, comp: map<N, nat>, comps: nat) {
    && (forall n :: n in comp ==> comp[n] < comps)
    && (forall n, x :: n in comp && n in g && x in g[n] ==> x in comp && comp[x] <= comp[n])
    && (forall a, b :: a in comp && b in comp && comp[a] == comp[b] ==> Reach(g, a, b))
  }

  /** Every stack node whose call has returned has only visited successors. */
  ghost predicate NoBlackToWhite<N>(g: Graph<N>, onstk: set<N>, comp: map<N, nat>, gray: set<N>) {
    forall n, x :: n in g && n in onstk && n !in gray && x in g[n] ==> x in onstk || x in comp
  }

  /** An older node on the stack reaches every younger one. */
  ghost predicate StackReach<N>(g: Graph<N>, dfn: map<N, nat>, onstk: set<N>) {
    forall a, b :: a in onstk && b in onstk && a in dfn && b in dfn && dfn[a] < dfn[b] ==> Reach(g, a, b)
  }

  /** n leads back to a node at least as old whose call is still open. */
  ghost predicate Anchored<N>(g: Graph<N>, dfn: map<N, nat>, gray: set<N>, n: N) {
    n in dfn && exists a :: a in gray && a in dfn && dfn[a] <= dfn[n] && Reach(g, n, a)
  }

  ghost predicate AllAnchored<N>(g: Graph<N>, dfn: map<N, nat>, gray: set<N>, onstk: set<N>) {
    forall n :: n in onstk ==> Anchored(g, dfn, gray, n)
  }

  ghost predicate Inv<N>(g: Graph<N>, m: Marks<N>, gray: set<N>) {
    && Closed(g) && m.low.Keys == g.Keys && gray <= m.onstk
    && Numbered(g, m.cnt, m.dfn, m.onstk, m.comp)
    && Finished(g, m.comp, m.comps)
    && NoBlackToWhite(g, m.onstk, m.comp, gray)
    && StackReach(g, m.dfn, m.onstk)
    && AllAnchored(g, m.dfn, gray, m.onstk)
  }

  ghost predicate KeepsNumbers<N>(g: Graph<N>, m0: Marks<N>, dfn: map<N, nat>, c: N) {
    && (forall n :: n in m0.dfn && m0.dfn[n] > 0 ==> n in dfn && dfn[n] == m0.dfn[n])
    && (forall n :: n in dfn && n in m0.dfn && dfn[n] > 0 && m0.dfn[n] == 0 ==> dfn[n] > m0.cnt && Reach(g, c, n))
  }

  ghost predicate KeepsLow<N>(m0: Marks<N>, low: map<N, nat>) {
    forall n :: n in m0.dfn && m0.dfn[n] > 0 && n in m0.low ==> n in low && low[n] == m0.low[n]
  }

  ghost predicate KeepsComponents<N>(m0: Marks<N>, comp: map<N, nat>, comps: nat) {
    && m0.comps <= comps
    && (forall n :: n in m0.comp ==> n in comp && comp[n] == m0.comp[n])
    && (forall n :: n in comp && n !in m0.comp ==> comp[n] >= m0.comps)
  }

  /** What a stretch of the search below c may change: nothing about nodes visited before it. */
  ghost predicate Extends<N>(g: Graph<N>, m0: Marks<N>, m: Marks<N>, c: N) {
    && m0.cnt <= m.cnt && m0.onstk <= m.onstk
    && KeepsNumbers(g, m0, m.dfn, c)
    && KeepsLow(m0, m.low)
    && KeepsComponents(m0, m.comp, m.comps)
  }

  /** v is the number of a node that is on the stack and reachable from c. */
  ghost predicate LowWitness<N>(g: Graph<N>, dfn: map<N, nat>, onstk: set<N>, c: N, v: nat) {
    exists y :: y in onstk && y in dfn && dfn[y] == v && Reach(g, c, y)
  }

  /** No edge from a stack node numbered above `above` leads to a node of `older` numbered below `bound`. */
  ghost predicate LowBound<N>(g: Graph<N>, dfn: map<N, nat>, onstk: set<N>, older: set<N>, above: nat, bound: nat) {
    forall x, y :: x in onstk && x in dfn && dfn[x] > above && x in g && y in g[x] && y in older && y in dfn ==>
      bound <= dfn[y]
  }

  ghost predicate VisitPost<N>(g: Graph<N>, m0: Marks<N>, m: Marks<N>, gray: set<N>, c: N) {
    && Inv(g, m, gray) && Extends(g, m0, m, c)
    && c in m.dfn && c in m.low && m.dfn[c] > m0.cnt && m.low[c] <= m.dfn[c]
    && (if c in m.onstk then LowWitness(g, m.dfn, m.onstk, c, m.low[c]) else m.low[c] == m.dfn[c])
    && LowBound(g, m.dfn, m.onstk, m0.onstk, m0.cnt, m.low[c])
  }

  /** The successors in `seen` have been visited, and those on the old stack are no older than `bound`. */
  ghost predicate Seen<N>(m0: Marks<N>, dfn: map<N, nat>, seen: set<N>, bound: nat) {
    && (forall x :: x in seen && x in dfn ==> dfn[x] > 0)
    && (forall x :: x in seen && x in m0.onstk && x in dfn ==> bound <= dfn[x])
  }

  /** The loop over the successors of c, entered from m0, with the successors in `seen` dealt with. */
  ghost predicate LoopInv<N>(g: Graph<N>, m0: Marks<N>, m: Marks<N>, gray: set<N>, c: N, seen: set<N>) {
    && Inv(g, m0, gray) && c in g && c in m0.dfn && m0.dfn[c] == 0
    && Inv(g, m, gray + {c}) && Extends(g, m0, m, c)
    && c in m.dfn && c in m.low && m.dfn[c] == m0.cnt + 1 && m.low[c] <= m.dfn[c]
    && LowWitness(g, m.dfn, m.onstk, c, m.low[c])
    && LowBound(g, m.dfn, m.onstk, m0.onstk, m0.cnt + 1, m.low[c])
    && Seen(m0, m.dfn, seen, m.low[c])
  }

  lemma Anchor<N>(g: Graph<N>, dfn: map<N, nat>, gray: set<N>, n: N) returns (a: N)
    requires Anchored(g, dfn, gray, n)
    ensures n in dfn && a in gray && a in dfn && dfn[a] <= dfn[n] && Reach(g, n, a)
  {
    hide Reach;
    a :| a in gray && a in dfn && dfn[a] <= dfn[n] && Reach(g, n, a);
  }

  lemma Anchors<N>(g: Graph<N>, dfn: map<N, nat>, gray: set<N>, n: N, a: N)
    requires n in dfn && a in gray && a in dfn && dfn[a] <= dfn[n] && Reach(g, n, a)
    ensures Anchored(g, dfn, gray, n)
  {
  }

  /** A stack node numbered before c was on the stack before c. */
  lemma Older<N>(g: Graph<N>, m0: Marks<N>, m: Marks<N>, c: N, y: N)
    requires Numbered(g, m0.cnt, m0.dfn, m0.onstk, m0.comp) && Numbered(g, m.cnt, m.dfn, m.onstk, m.comp)
    requires Extends(g, m0, m, c) && y in m.onstk && m.dfn[y] <= m0.cnt
    ensures y in m0.onstk && m0.dfn[y] == m.dfn[y]
  {
    hide Reach, KeepsLow;
  }

  lemma OldNumbers<N>(g: Graph<N>, m0: Marks<N>, m: Marks<N>, c: N, y: N)
    requires Numbered(g, m0.cnt, m0.dfn, m0.onstk, m0.comp) && Extends(g, m0, m, c) && y in m0.onstk
    ensures y in m.dfn && m.dfn[y] <= m0.cnt
  {
    hide Reach, KeepsLow, KeepsComponents;
  }

  // ---- entering c -------------------------------------------------------------------------------

  ghost function Push<N>(m: Marks<N>, c: N): (r: Marks<N>) {
    m.(cnt := m.cnt + 1, dfn := m.dfn[c := m.cnt + 1], low := m.low[c := m.cnt + 1], onstk := m.onstk + {c})
  }

  lemma PushReach<N>(g: Graph<N>, m: Marks<N>, gray: set<N>, c: N)
    requires Inv(g, m, gray) && c in g && m.dfn[c] == 0
    requires forall a :: a in gray ==> Reach(g, a, c)
    ensures StackReach(g, Push(m, c).dfn, Push(m, c).onstk)
  {
    hide Reach, Anchored, Finished, NoBlackToWhite;
    var r := Push(m, c);
    forall x, y | x in r.onstk && y in r.onstk && x in r.dfn && y in r.dfn && r.dfn[x] < r.dfn[y]
      ensures Reach(g, x, y)
    {
      if y == c {
        var a := Anchor(g, m.dfn, gray, x);
        ReachTrans(g, x, a, c);
      }
    }
  }

  lemma PushAnchored<N>(g: Graph<N>, m: Marks<N>, gray: set<N>, c: N)
    requires AllAnchored(g, m.dfn, gray, m.onstk) && gray <= m.onstk && c !in m.onstk
    ensures AllAnchored(g, Push(m, c).dfn, gray + {c}, Push(m, c).onstk)
  {
    hide Reach, Anchored;
    var r := Push(m, c);
    forall n | n in r.onstk ensures Anchored(g, r.dfn, gray + {c}, n) {
      if n == c {
        ReachRefl(g, c);
        Anchors(g, r.dfn, gray + {c}, c, c);
      } else {
        var a := Anchor(g, m.dfn, gray, n);
        Anchors(g, r.dfn, gray + {c}, n, a);
      }
    }
  }

  lemma PushShape<N>(g: Graph<N>, m: Marks<N>, gray: set<N>, c: N)
    requires Numbered(g, m.cnt, m.dfn, m.onstk, m.comp) && NoBlackToWhite(g, m.onstk, m.comp, gray) && c in g
    requires m.dfn[c] == 0
    ensures c !in m.onstk && c !in m.comp
    ensures var r := Push(m, c);
      Numbered(g, r.cnt, r.dfn, r.onstk, r.comp) && NoBlackToWhite(g, r.onstk, r.comp, gray + {c})
  {
    hide Reach;
  }

  lemma PushExtends<N>(g: Graph<N>, m: Marks<N>, c: N)
    requires Numbered(g, m.cnt, m.dfn, m.onstk, m.comp) && c in g && m.dfn[c] == 0
    ensures var r := Push(m, c);
      && Extends(g, m, r, c)
      && LowWitness(g, r.dfn, r.onstk, c, r.low[c])
      && LowBound(g, r.dfn, r.onstk, m.onstk, m.cnt + 1, r.low[c])
  {
    hide Reach;
    ReachRefl(g, c);
    assert c in Push(m, c).onstk;
  }

  lemma PushStarts<N>(g: Graph<N>, m: Marks<N>, gray: set<N>, c: N)
    requires Inv(g, m, gray) && c in g && c in m.dfn && m.dfn[c] == 0
    requires forall a :: a in gray ==> Reach(g, a, c)
    ensures LoopInv(g, m, Push(m, c), gray, c, {})
  {
    hide Reach, AllAnchored, Finished, StackReach, NoBlackToWhite, Numbered, Extends, LowWitness, LowBound;
    PushReach(g, m, gray, c);
    PushShape(g, m, gray, c);
    PushExtends(g, m, c);
    PushAnchored(g, m, gray, c);
  }

  // ---- one successor ----------------------------------------------------------------------------

  lemma SkipFinished<N>(g: Graph<N>, m0: Marks<N>, m: Marks<N>, gray: set<N>, c: N, seen: set<N>, d: N)
    requires LoopInv(g, m0, m, gray, c, seen) && d in g[c] && d in m.dfn && m.dfn[d] != 0 && d !in m.onstk
    ensures LoopInv(g, m0, m, gray, c, seen + {d})
  {
    hide Numbered, Closed, AllAnchored, LowWitness, LowBound, Finished, NoBlackToWhite, StackReach,
      KeepsNumbers, KeepsLow, KeepsComponents;
  }

  ghost function Lower<N>(m: Marks<N>, c: N, v: nat): (r: Marks<N>)
    requires c in m.low
  {
    m.(low := m.low[c := if m.low[c] < v then m.low[c] else v])
  }

  lemma LowerStays<N>(g: Graph<N>, m0: Marks<N>, m: Marks<N>, gray: set<N>, c: N, v: nat)
    requires Inv(g, m, gray) && Extends(g, m0, m, c) && c in m.low && c in m0.dfn && m0.dfn[c] == 0
    ensures Inv(g, Lower(m, c, v), gray) && Extends(g, m0, Lower(m, c, v), c)
  {
    hide Numbered, AllAnchored, Finished, NoBlackToWhite, StackReach, KeepsNumbers, KeepsComponents;
  }

  lemma BackWitness<N>(g: Graph<N>, m: Marks<N>, c: N, d: N)
    requires c in g && d in g[c] && d in m.onstk && d in m.dfn && c in m.low
    requires LowWitness(g, m.dfn, m.onstk, c, m.low[c])
    ensures LowWitness(g, m.dfn, m.onstk, c, Lower(m, c, m.dfn[d]).low[c])
  {
    hide Reach;
    ReachEdge(g, c, d);
  }

  lemma OnStackNumbered<N>(g: Graph<N>, m: Marks<N>, d: N)
    requires Numbered(g, m.cnt, m.dfn, m.onstk, m.comp) && d in m.onstk
    ensures d in m.dfn && m.dfn[d] > 0
  {
  }

  lemma BackEdge<N>(g: Graph<N>, m0: Marks<N>, m: Marks<N>, gray: set<N>, c: N, seen: set<N>, d: N)
    requires LoopInv(g, m0, m, gray, c, seen) && d in g[c] && d in m.onstk && d in m.dfn
    ensures LoopInv(g, m0, Lower(m, c, m.dfn[d]), gray, c, seen + {d})
  {
    hide Reach, AllAnchored, Finished, NoBlackToWhite, StackReach, Extends, LowBound, LowWitness, Numbered;
    OnStackNumbered(g, m, d);
    LowerStays(g, m0, m, gray + {c}, c, m.dfn[d]);
    WeakerBound(g, m, m0, seen, m0.cnt + 1, m.low[c], Lower(m, c, m.dfn[d]).low[c]);
    BackWitness(g, m, c, d);
  }

  lemma TreeNumbers<N>(g: Graph<N>, m0: Marks<N>, m: Marks<N>, m': Marks<N>, c: N, d: N)
    requires m0.dfn.Keys == m.dfn.Keys == m'.dfn.Keys && m0.cnt <= m.cnt
    requires KeepsNumbers(g, m0, m.dfn, c) && KeepsNumbers(g, m, m'.dfn, d) && Reach(g, c, d)
    ensures KeepsNumbers(g, m0, m'.dfn, c)
  {
    hide Reach;
    forall n | n in m'.dfn && n in m0.dfn && m'.dfn[n] > 0 && m0.dfn[n] == 0
      ensures m'.dfn[n] > m0.cnt && Reach(g, c, n)
    {
      if m.dfn[n] == 0 {
        ReachTrans(g, c, d, n);
      }
    }
  }

  lemma TreeExtends<N>(g: Graph<N>, m0: Marks<N>, m: Marks<N>, m': Marks<N>, c: N, d: N)
    requires m0.dfn.Keys == m.dfn.Keys == m'.dfn.Keys
    requires Extends(g, m0, m, c) && Extends(g, m, m', d) && Reach(g, c, d)
    ensures Extends(g, m0, m', c)
  {
    hide Reach;
    TreeNumbers(g, m0, m, m', c, d);
  }

  lemma TreeWitness<N>(g: Graph<N>, m: Marks<N>, m': Marks<N>, gray: set<N>, c: N, d: N)
    requires Inv(g, m, gray) && c in m.onstk && m.low[c] <= m.dfn[c] && LowWitness(g, m.dfn, m.onstk, c, m.low[c])
    requires c in g && d in g[c] && VisitPost(g, m, m', gray, d)
    ensures LowWitness(g, m'.dfn, m'.onstk, c, Lower(m', c, m'.low[d]).low[c])
  {
    hide Reach, AllAnchored, Finished, NoBlackToWhite, StackReach, LowBound, KeepsComponents;
    if m'.low[c] < m'.low[d] {
      var y :| y in m.onstk && y in m.dfn && m.dfn[y] == m.low[c] && Reach(g, c, y);
      assert m'.dfn[y] == m'.low[c];
    } else {
      var y :| y in m'.onstk && y in m'.dfn && m'.dfn[y] == m'.low[d] && Reach(g, d, y);
      ReachEdge(g, c, d);
      ReachTrans(g, c, d, y);
    }
  }

  lemma TreeBound<N>(g: Graph<N>, m0: Marks<N>, m: Marks<N>, m': Marks<N>, c: N, d: N, bound: nat)
    requires Numbered(g, m0.cnt, m0.dfn, m0.onstk, m0.comp) && Numbered(g, m.cnt, m.dfn, m.onstk, m.comp)
    requires Numbered(g, m'.cnt, m'.dfn, m'.onstk, m'.comp)
    requires Extends(g, m0, m, c) && Extends(g, m, m', d)
    requires LowBound(g, m.dfn, m.onstk, m0.onstk, m0.cnt + 1, bound)
    requires LowBound(g, m'.dfn, m'.onstk, m.onstk, m.cnt, bound)
    ensures LowBound(g, m'.dfn, m'.onstk, m0.onstk, m0.cnt + 1, bound)
  {
    hide Reach;
  }

  lemma TreeSeen<N>(g: Graph<N>, m0: Marks<N>, m: Marks<N>, m': Marks<N>, seen: set<N>, d: N, bound: nat)
    requires Numbered(g, m0.cnt, m0.dfn, m0.onstk, m0.comp) && Numbered(g, m.cnt, m.dfn, m.onstk, m.comp)
    requires m0.onstk <= m.onstk && m.dfn.Keys == m'.dfn.Keys && KeepsNumbers(g, m, m'.dfn, d) && d in m.dfn
    requires m.dfn[d] == 0 && m'.dfn[d] > 0
    requires Seen(m0, m.dfn, seen, bound)
    ensures Seen(m0, m'.dfn, seen + {d}, bound)
  {
    hide Reach;
  }

  lemma WeakerBound<N>(g: Graph<N>, m: Marks<N>, m0: Marks<N>, seen: set<N>, above: nat, bound: nat, bound': nat)
    requires bound' <= bound
    ensures LowBound(g, m.dfn, m.onstk, m0.onstk, above, bound) ==> LowBound(g, m.dfn, m.onstk, m0.onstk, above, bound')
    ensures Seen(m0, m.dfn, seen, bound) ==> Seen(m0, m.dfn, seen, bound')
  {
  }

  lemma TreeEdge<N>(g: Graph<N>, m0: Marks<N>, m: Marks<N>, m': Marks<N>, gray: set<N>, c: N, seen: set<N>, d: N)
    requires LoopInv(g, m0, m, gray, c, seen) && d in g[c] && d in m.dfn && m.dfn[d] == 0
    requires VisitPost(g, m, m', gray + {c}, d) && c in m'.low
    ensures LoopInv(g, m0, Lower(m', c, m'.low[d]), gray, c, seen + {d})
  {
    hide Reach, Closed, Numbered, AllAnchored, Finished, NoBlackToWhite, StackReach, LowBound, LowWitness, Seen;
    hide KeepsComponents, KeepsNumbers, KeepsLow;
    TreeMarks(g, m0, m, m', c, d);
    ReachEdge(g, c, d);
    TreeExtends(g, m0, m, m', c, d);
    LowerStays(g, m0, m', gray + {c}, c, m'.low[d]);
    TreeWitness(g, m, m', gray + {c}, c, d);
    TreeLow(g, m0, m, m', c, seen, d, Lower(m', c, m'.low[d]).low[c]);
  }

  /** The marks of c are as before the visit to d. */
  lemma TreeMarks<N>(g: Graph<N>, m0: Marks<N>, m: Marks<N>, m': Marks<N>, c: N, d: N)
    requires Numbered(g, m0.cnt, m0.dfn, m0.onstk, m0.comp) && Numbered(g, m.cnt, m.dfn, m.onstk, m.comp)
    requires Numbered(g, m'.cnt, m'.dfn, m'.onstk, m'.comp) && Extends(g, m, m', d)
    requires c in m.dfn && m.dfn[c] > 0 && c in m.low && c in m'.low
    ensures m0.dfn.Keys == m.dfn.Keys == m'.dfn.Keys && m'.dfn[c] == m.dfn[c] && m'.low[c] == m.low[c]
  {
    hide Reach;
  }

  /** The bounds that the loop knows, after the visit to d. */
  lemma TreeLow<N>(g: Graph<N>, m0: Marks<N>, m: Marks<N>, m': Marks<N>, c: N, seen: set<N>, d: N, v: nat)
    requires c in m.low && d in m'.low && v <= m.low[c] && v <= m'.low[d]
    requires Numbered(g, m0.cnt, m0.dfn, m0.onstk, m0.comp) && Numbered(g, m.cnt, m.dfn, m.onstk, m.comp)
    requires Numbered(g, m'.cnt, m'.dfn, m'.onstk, m'.comp)
    requires Extends(g, m0, m, c) && Extends(g, m, m', d) && d in m.dfn && m.dfn[d] == 0
    requires d in m'.dfn && m'.dfn[d] > 0
    requires LowBound(g, m.dfn, m.onstk, m0.onstk, m0.cnt + 1, m.low[c]) && Seen(m0, m.dfn, seen, m.low[c])
    requires LowBound(g, m'.dfn, m'.onstk, m.onstk, m.cnt, m'.low[d])
    ensures LowBound(g, m'.dfn, m'.onstk, m0.onstk, m0.cnt + 1, v) && Seen(m0, m'.dfn, seen + {d}, v)
  {
    hide Reach, LowBound, KeepsComponents, Seen;
    WeakerBound(g, m, m0, seen, m0.cnt + 1, m.low[c], v);
    WeakerBound(g, m', m, seen, m.cnt, m'.low[d], v);
    TreeBound(g, m0, m, m', c, d, v);
    TreeSeen(g, m0, m, m', seen, d, v);
  }

  // ---- leaving c --------------------------------------------------------------------------------

  lemma LeaveAnchored<N>(g: Graph<N>, m0: Marks<N>, m: Marks<N>, gray: set<N>, c: N)
    requires c in g && LoopInv(g, m0, m, gray, c, g[c]) && m.low[c] < m.dfn[c]
    ensures AllAnchored(g, m.dfn, gray, m.onstk)
  {
    hide Reach, Anchored, Finished, NoBlackToWhite, StackReach, LowBound, Seen, KeepsComponents, KeepsLow;
    var y :| y in m.onstk && y in m.dfn && m.dfn[y] == m.low[c] && Reach(g, c, y);
    Older(g, m0, m, c, y);
    var a := Anchor(g, m0.dfn, gray, y);
    ReachTrans(g, c, y, a);
    assert m.dfn[a] < m.dfn[c];
    hide Numbered, KeepsNumbers;
    forall n | n in m.onstk ensures Anchored(g, m.dfn, gray, n) {
      var b := Anchor(g, m.dfn, gray + {c}, n);
      if b == c {
        ReachTrans(g, n, c, a);
        Anchors(g, m.dfn, gray, n, a);
      } else {
        Anchors(g, m.dfn, gray, n, b);
      }
    }
  }

  /** With all successors of c seen, c may turn black and the bound holds from c on. */
  lemma AllSeen<N>(g: Graph<N>, m0: Marks<N>, m: Marks<N>, gray: set<N>, c: N)
    requires Closed(g) && c in g && Numbered(g, m.cnt, m.dfn, m.onstk, m.comp) && m.dfn[c] == m0.cnt + 1 && c in m.onstk
    requires c in m.low && Seen(m0, m.dfn, g[c], m.low[c])
    requires NoBlackToWhite(g, m.onstk, m.comp, gray + {c})
    requires LowBound(g, m.dfn, m.onstk, m0.onstk, m0.cnt + 1, m.low[c])
    ensures NoBlackToWhite(g, m.onstk, m.comp, gray)
    ensures LowBound(g, m.dfn, m.onstk, m0.onstk, m0.cnt, m.low[c])
  {
    hide Reach;
    forall x, y | x in m.onstk && x in m.dfn && m.dfn[x] > m0.cnt && x in g && y in g[x] && y in m0.onstk && y in m.dfn
      ensures m.low[c] <= m.dfn[y]
    {
      if m.dfn[x] == m0.cnt + 1 {
        assert x == c;
      }
    }
  }

  /** c leads below itself, so it stays on the stack. */
  lemma LeaveOpen<N>(g: Graph<N>, m0: Marks<N>, m: Marks<N>, gray: set<N>, c: N)
    requires c in g && LoopInv(g, m0, m, gray, c, g[c]) && m.low[c] != m.dfn[c]
    ensures VisitPost(g, m0, m, gray, c)
  {
    hide Reach, AllAnchored, Finished, StackReach, LowWitness, Numbered, Extends, NoBlackToWhite, LowBound, Seen;
    LeaveAnchored(g, m0, m, gray, c);
    AllSeen(g, m0, m, gray, c);
    assert gray <= m.onstk;
  }

  /** c is the root of a component: every node on the stack from c on. */
  ghost function Component<N>(m: Marks<N>, from: nat): (scc: set<N>) {
    set n | n in m.onstk && n in m.dfn && m.dfn[n] >= from
  }

  ghost function Pop<N>(m: Marks<N>, scc: set<N>): (r: Marks<N>) {
    m.(onstk := m.onstk - scc,
       comp := map n | n in m.comp.Keys + scc :: if n in m.comp then m.comp[n] else m.comps,
       comps := m.comps + 1)
  }

  /** The popped nodes are strongly connected. */
  lemma PopConnected<N>(g: Graph<N>, m0: Marks<N>, m: Marks<N>, gray: set<N>, c: N, x: N)
    requires c in g && LoopInv(g, m0, m, gray, c, g[c]) && x in Component(m, m.dfn[c])
    ensures Reach(g, c, x) && Reach(g, x, c)
  {
    hide Reach, Anchored, Finished, NoBlackToWhite, LowBound, LowWitness, Seen, KeepsLow, KeepsComponents;
    ReachRefl(g, c);
    var a := Anchor(g, m.dfn, gray + {c}, x);
    if a != c {
      assert a in m0.onstk;
      ReachTrans(g, x, a, c);
    }
  }

  /** No edge leaves the popped nodes except into finished components. */
  lemma PopClosed<N>(g: Graph<N>, m0: Marks<N>, m: Marks<N>, gray: set<N>, c: N, x: N, y: N)
    requires c in g && LoopInv(g, m0, m, gray, c, g[c]) && m.low[c] == m.dfn[c]
    requires x in Component(m, m.dfn[c]) && x in g && y in g[x]
    ensures y in Component(m, m.dfn[c]) || y in m.comp
  {
    hide Reach, AllAnchored, Finished, StackReach, LowWitness, Extends, Seen;
    assert m.onstk <= m.dfn.Keys;
    hide Numbered;
    AllSeen(g, m0, m, gray, c);
    if x in gray {
      OldNumbers(g, m0, m, c, x);
    }
    assert y in m.onstk || y in m.comp;
    hide NoBlackToWhite;
    if y in m.onstk && m.dfn[y] < m.dfn[c] {
      Older(g, m0, m, c, y);
    }
  }

  lemma PopConnects<N>(g: Graph<N>, m0: Marks<N>, m: Marks<N>, gray: set<N>, c: N, a: N, b: N)
    requires c in g && LoopInv(g, m0, m, gray, c, g[c]) && a in Component(m, m.dfn[c]) && b in Component(m, m.dfn[c])
    ensures Reach(g, a, b)
  {
    hide *;
    PopConnected(g, m0, m, gray, c, a);
    PopConnected(g, m0, m, gray, c, b);
    ReachTrans(g, a, c, b);
  }

  lemma PopFinished<N>(g: Graph<N>, m0: Marks<N>, m: Marks<N>, gray: set<N>, c: N)
    requires c in g && LoopInv(g, m0, m, gray, c, g[c]) && m.low[c] == m.dfn[c]
    ensures var r := Pop(m, Component(m, m.dfn[c])); Finished(g, r.comp, r.comps)
  {
    hide Reach, Component, Numbered, AllAnchored, NoBlackToWhite, StackReach, LowWitness, LowBound, Extends, Seen;
    var scc := Component(m, m.dfn[c]);
    var r := Pop(m, scc);
    assert Finished(g, m.comp, m.comps);
    hide Inv;
    forall n, x | n in r.comp && n in g && x in g[n]
      ensures x in r.comp && r.comp[x] <= r.comp[n]
    {
      if n !in m.comp {
        PopClosed(g, m0, m, gray, c, n, x);
      }
    }
    forall a, b | a in r.comp && b in r.comp && r.comp[a] == r.comp[b]
      ensures Reach(g, a, b)
    {
      if a !in m.comp {
        PopConnects(g, m0, m, gray, c, a, b);
      }
    }
  }

  lemma PopAnchored<N>(g: Graph<N>, m0: Marks<N>, m: Marks<N>, gray: set<N>, c: N)
    requires c in g && LoopInv(g, m0, m, gray, c, g[c])
    ensures AllAnchored(g, m.dfn, gray, m0.onstk)
  {
    hide Reach, Anchored, Finished, NoBlackToWhite, StackReach, LowWitness, LowBound, Seen, KeepsLow, KeepsComponents;
    forall n | n in m0.onstk ensures Anchored(g, m.dfn, gray, n) {
      var a := Anchor(g, m0.dfn, gray, n);
      Anchors(g, m.dfn, gray, n, a);
    }
  }

  lemma PopStack<N>(g: Graph<N>, m0: Marks<N>, m: Marks<N>, gray: set<N>, c: N)
    requires c in g && LoopInv(g, m0, m, gray, c, g[c])
    ensures Pop(m, Component(m, m.dfn[c])).onstk == m0.onstk
  {
    hide Reach, AllAnchored, LowWitness, LowBound, Finished, StackReach, Seen, NoBlackToWhite;
    assert m.onstk <= m.dfn.Keys && m0.onstk <= m.onstk;
    hide Numbered, Extends;
    var r := Pop(m, Component(m, m.dfn[c]));
    forall n ensures n in r.onstk <==> n in m0.onstk {
      if n in r.onstk {
        Older(g, m0, m, c, n);
      } else if n in m0.onstk {
        OldNumbers(g, m0, m, c, n);
      }
    }
  }

  lemma PopRest<N>(g: Graph<N>, m: Marks<N>, gray: set<N>, scc: set<N>)
    requires Numbered(g, m.cnt, m.dfn, m.onstk, m.comp) && NoBlackToWhite(g, m.onstk, m.comp, gray) && scc <= m.onstk
    ensures var r := Pop(m, scc); Numbered(g, r.cnt, r.dfn, r.onstk, r.comp) && NoBlackToWhite(g, r.onstk, r.comp, gray)
  {
  }

  lemma PopKeeps<N>(g: Graph<N>, m0: Marks<N>, m: Marks<N>, c: N, scc: set<N>)
    requires Extends(g, m0, m, c) && m.onstk - scc == m0.onstk
    ensures Extends(g, m0, Pop(m, scc), c)
  {
    hide Reach;
  }

  lemma LeaveRoot<N>(g: Graph<N>, m0: Marks<N>, m: Marks<N>, gray: set<N>, c: N)
    requires c in g && LoopInv(g, m0, m, gray, c, g[c]) && m.low[c] == m.dfn[c]
    ensures Pop(m, Component(m, m.dfn[c])).onstk == m0.onstk
    ensures VisitPost(g, m0, Pop(m, Component(m, m.dfn[c])), gray, c)
  {
    hide Reach, AllAnchored, LowWitness, Finished, NoBlackToWhite, Seen, Extends, Numbered;
    var scc := Component(m, m.dfn[c]);
    PopFinished(g, m0, m, gray, c);
    PopAnchored(g, m0, m, gray, c);
    PopStack(g, m0, m, gray, c);
    PopKeeps(g, m0, m, c, scc);
    AllSeen(g, m0, m, gray, c);
    PopRest(g, m, gray, scc);
  }
}
