/** Ordering of committed commands: the dependency graph and its strongly connected components. */
module EpaxosExecute {
  import opened EpaxosTypes
  import opened Collections
  import opened Reachability
  import opened SccMarks

  class EaCmd {
    const ins: Instance
    var deps: seq<EaCmd>
    var dfn: nat
    var low: nat
    var instk: bool

    constructor (ins: Instance)
      ensures this.ins == ins && deps == [] && dfn == 0 && low == 0 && !instk
    {
      this.ins := ins;
      deps, dfn, low, instk := [], 0, 0, false;
    }
  }

  ghost function SuccessorsOf(nodes: set<EaCmd>): (g: Graph<EaCmd>)
    reads nodes`deps
  {
    map c | c in nodes :: Elems(c.deps)
  }

  ghost function DfnOf(nodes: set<EaCmd>): (r: map<EaCmd, nat>)
    reads nodes`dfn
  {
    map c | c in nodes :: c.dfn
  }

  ghost function LowOf(nodes: set<EaCmd>): (r: map<EaCmd, nat>)
    reads nodes`low
  {
    map c | c in nodes :: c.low
  }

  ghost function OnStack(nodes: set<EaCmd>): (r: set<EaCmd>)
    reads nodes`instk
  {
    set c | c in nodes && c.instk
  }

  /** The stack lists the marked nodes in the order they were numbered. */
  ghost predicate StackLists(m: Marks<EaCmd>, stack: seq<EaCmd>) {
    && Elems(stack) == m.onstk
    && (forall i, j :: 0 <= i < j < |stack| && stack[i] in m.dfn && stack[j] in m.dfn ==>
      m.dfn[stack[i]] < m.dfn[stack[j]])
  }

  /** The result lists each finished node once, by component, and inside a component by falling sequence number. */
  ghost predicate Ordered(res: seq<EaCmd>, comp: map<EaCmd, nat>) {
    && Elems(res) == comp.Keys
    && (forall i, j :: 0 <= i < j < |res| ==> res[i] != res[j])
    && (forall i, j :: 0 <= i < j < |res| && res[i] in comp && res[j] in comp ==>
          comp[res[i]] < comp[res[j]] || (comp[res[i]] == comp[res[j]] && res[i].ins.seqno >= res[j].ins.seqno))
  }

  /** Nothing is listed before something it depends on, unless the two depend on each other. */
  ghost predicate DepsFirst<N>(g: Graph<N>, res: seq<N>) {
    forall i, j :: 0 <= i < j < |res| && Reach(g, res[i], res[j]) ==> Reach(g, res[j], res[i])
  }

  /** The order promised for a root: res[i] carries sequence number seqnos[i]. */
  ghost predicate SccOrder<N>(g: Graph<N>, root: N, res: seq<N>, seqnos: seq<nat>) {
    && |seqnos| == |res|
    // exactly the nodes reachable from the root, each once
    && (forall n :: n in res ==> n in g && Reach(g, root, n))
    && (forall n :: n in g && Reach(g, root, n) ==> n in res)
    && (forall i, j :: 0 <= i < j < |res| ==> res[i] != res[j])
    && DepsFirst(g, res)
    // the nodes of a component are adjacent, by falling sequence number
    && (forall i, j, k :: 0 <= i < j < k < |res| && SameScc(g, res[i], res[k]) ==> SameScc(g, res[i], res[j]))
    && (forall i, j :: 0 <= i < j < |res| && SameScc(g, res[i], res[j]) ==> seqnos[i] >= seqnos[j])
  }

  ghost function SeqNos(res: seq<EaCmd>): (r: seq<nat>)
    ensures |r| == |res| && forall i :: 0 <= i < |res| ==> r[i] == res[i].ins.seqno
  {
    seq(|res|, i requires 0 <= i < |res| => res[i].ins.seqno)
  }

  ghost predicate SortedBySeq(s: seq<EaCmd>) {
    forall i, j :: 0 <= i < j < |s| ==> s[i].ins.seqno >= s[j].ins.seqno
  }

  function InsertBySeq(c: EaCmd, s: seq<EaCmd>): seq<EaCmd>
  {
    if |s| == 0 || c.ins.seqno >= s[0].ins.seqno then [c] + s else [s[0]] + InsertBySeq(c, s[1..])
  }

  lemma {:induction false} Inserted(c: EaCmd, s: seq<EaCmd>)
    requires SortedBySeq(s)
    ensures SortedBySeq(InsertBySeq(c, s)) && multiset(InsertBySeq(c, s)) == multiset(s) + multiset{c}
    ensures |InsertBySeq(c, s)| > 0 && (InsertBySeq(c, s)[0] == c || (|s| > 0 && InsertBySeq(c, s)[0] == s[0]))
    decreases |s|
  {
    if |s| == 0 || c.ins.seqno >= s[0].ins.seqno {
      assert InsertBySeq(c, s) == [c] + s;
      hide InsertBySeq;
      SortedFront(c, s);
    } else {
      var t := InsertBySeq(c, s[1..]);
      assert InsertBySeq(c, s) == [s[0]] + t;
      assert SortedBySeq(s[1..]) && (|s| > 1 ==> s[0].ins.seqno >= s[1].ins.seqno);
      assert s == [s[0]] + s[1..];
      hide InsertBySeq, SortedBySeq;
      Inserted(c, s[1..]);
      SortedFront(s[0], t);
      Contents(s[0], s[1..], t, c);
    }
  }

  lemma SortedFront(x: EaCmd, t: seq<EaCmd>)
    requires SortedBySeq(t) && (|t| > 0 ==> x.ins.seqno >= t[0].ins.seqno)
    ensures SortedBySeq([x] + t)
  {
  }

  lemma Contents(x: EaCmd, s: seq<EaCmd>, t: seq<EaCmd>, c: EaCmd)
    requires multiset(t) == multiset(s) + multiset{c}
    ensures multiset([x] + t) == multiset([x] + s) + multiset{c}
  {
  }

  /** Stands for the library sort: some permutation in falling sequence number. */
  method SortBySeq(s: seq<EaCmd>) returns (r: seq<EaCmd>)
    ensures SortedBySeq(r) && multiset(r) == multiset(s)
  {
    r := [];
    for i := 0 to |s|
      invariant SortedBySeq(r) && multiset(r) == multiset(s[..i])
    {
      Inserted(s[i], r);
      r := InsertBySeq(s[i], r);
      assert s[..i + 1] == s[..i] + [s[i]];
    }
    assert s[..|s|] == s;
  }

  lemma StackAfterPush(g: Graph<EaCmd>, m: Marks<EaCmd>, stack: seq<EaCmd>, c: EaCmd)
    requires StackLists(m, stack) && Numbered(g, m.cnt, m.dfn, m.onstk, m.comp) && c !in m.onstk
    ensures StackLists(Push(m, c), stack + [c])
  {
    var r := Push(m, c);
    assert forall n :: n in stack + [c] <==> n in stack || n == c;
    forall i, j | 0 <= i < j < |stack + [c]|
      ensures (stack + [c])[i] in r.dfn && (stack + [c])[j] in r.dfn
      ensures r.dfn[(stack + [c])[i]] < r.dfn[(stack + [c])[j]]
    {
      assert stack[i] in m.onstk;
    }
  }

  /** The stack from c on is the component of c, and it has no repetition. */
  lemma StackSuffix(g: Graph<EaCmd>, m: Marks<EaCmd>, stack: seq<EaCmd>, at: nat)
    requires StackLists(m, stack) && Numbered(g, m.cnt, m.dfn, m.onstk, m.comp) && at < |stack|
    ensures forall i :: 0 <= i < |stack| ==> stack[i] in m.dfn
    ensures Elems(stack[at..]) == Component(m, m.dfn[stack[at]])
    ensures forall i, j :: at <= i < j < |stack| ==> stack[i] != stack[j]
  {
    forall i | 0 <= i < |stack| ensures stack[i] in m.dfn {
      assert stack[i] in m.onstk;
    }
    forall n ensures n in stack[at..] <==> n in Component(m, m.dfn[stack[at]]) {
      SuffixIsComponent(g, m, stack, at, n);
    }
  }

  lemma SuffixIsComponent(g: Graph<EaCmd>, m: Marks<EaCmd>, stack: seq<EaCmd>, at: nat, n: EaCmd)
    requires StackLists(m, stack) && Numbered(g, m.cnt, m.dfn, m.onstk, m.comp) && at < |stack| && stack[at] in m.dfn
    ensures n in stack[at..] <==> n in Component(m, m.dfn[stack[at]])
  {
    if n in stack[at..] {
      var i :| at <= i < |stack| && stack[i] == n;
    }
    if n in Component(m, m.dfn[stack[at]]) {
      assert n in m.onstk;
      var i :| 0 <= i < |stack| && stack[i] == n;
    }
  }

  lemma StackAfterPop(m: Marks<EaCmd>, stack: seq<EaCmd>, at: nat)
    requires StackLists(m, stack) && at <= |stack|
    requires forall i, j :: 0 <= i < j < |stack| ==> stack[i] != stack[j]
    ensures StackLists(Pop(m, Elems(stack[at..])), stack[..at])
  {
    var scc := Elems(stack[at..]);
    forall n ensures n in stack[..at] <==> n in m.onstk - scc {
      assert stack == stack[..at] + stack[at..];
      assert n in stack <==> n in m.onstk;
    }
  }

  lemma AppendComponent(m: Marks<EaCmd>, res: seq<EaCmd>, scc: seq<EaCmd>, sorted: seq<EaCmd>)
    requires Ordered(res, m.comp) && SortedBySeq(sorted) && multiset(sorted) == multiset(scc)
    requires forall i, j :: 0 <= i < j < |scc| ==> scc[i] != scc[j]
    requires forall n :: n in m.comp ==> m.comp[n] < m.comps
    requires forall i :: 0 <= i < |scc| ==> scc[i] !in m.comp
    ensures Ordered(res + sorted, Pop(m, Elems(scc)).comp)
  {
    hide Ordered, SortedBySeq;
    Permuted(scc, sorted);
    assert Elems(scc) == Elems(sorted) by {
      assert forall n :: n in sorted <==> n in multiset(sorted);
      assert forall n :: n in scc <==> n in multiset(scc);
    }
    AppendSorted(m, res, sorted);
  }

  lemma AppendSorted(m: Marks<EaCmd>, res: seq<EaCmd>, sorted: seq<EaCmd>)
    requires Ordered(res, m.comp) && SortedBySeq(sorted)
    requires forall i, j :: 0 <= i < j < |sorted| ==> sorted[i] != sorted[j]
    requires forall n :: n in m.comp ==> m.comp[n] < m.comps
    requires forall n :: n in sorted ==> n !in m.comp
    ensures Ordered(res + sorted, Pop(m, Elems(sorted)).comp)
  {
    InComponents(m, res, sorted, sorted);
    assert Elems(res + sorted) == Elems(res) + Elems(sorted);
  }

  lemma InComponents(m: Marks<EaCmd>, res: seq<EaCmd>, scc: seq<EaCmd>, sorted: seq<EaCmd>)
    requires Ordered(res, m.comp) && forall n :: n in sorted ==> n in scc
    requires forall i :: 0 <= i < |scc| ==> scc[i] !in m.comp
    ensures var comp := Pop(m, Elems(scc)).comp;
      && (forall i :: 0 <= i < |res| ==> res[i] in comp && res[i] in m.comp && comp[res[i]] == m.comp[res[i]])
      && (forall i :: 0 <= i < |sorted| ==> sorted[i] in comp && sorted[i] !in m.comp && comp[sorted[i]] == m.comps)
  {
    assert forall i :: 0 <= i < |res| ==> res[i] in Elems(res);
    assert forall i :: 0 <= i < |sorted| ==> sorted[i] in sorted;
  }

  lemma PopLists(g: Graph<EaCmd>, m: Marks<EaCmd>, stack: seq<EaCmd>, at: nat, res: seq<EaCmd>, sorted: seq<EaCmd>)
    requires StackLists(m, stack) && Ordered(res, m.comp) && at < |stack|
    requires Numbered(g, m.cnt, m.dfn, m.onstk, m.comp) && Finished(g, m.comp, m.comps)
    requires SortedBySeq(sorted) && multiset(sorted) == multiset(stack[at..])
    ensures var r := Pop(m, Elems(stack[at..])); StackLists(r, stack[..at]) && Ordered(res + sorted, r.comp)
  {
    hide *;
    PopFacts(g, m, stack, at);
    StackAfterPop(m, stack, at);
    AppendComponent(m, res, stack[at..], sorted);
  }

  lemma PopFacts(g: Graph<EaCmd>, m: Marks<EaCmd>, stack: seq<EaCmd>, at: nat)
    requires StackLists(m, stack) && at < |stack|
    requires Numbered(g, m.cnt, m.dfn, m.onstk, m.comp) && Finished(g, m.comp, m.comps)
    ensures forall i, j :: 0 <= i < j < |stack| ==> stack[i] != stack[j]
    ensures forall i, j :: 0 <= i < j < |stack[at..]| ==> stack[at..][i] != stack[at..][j]
    ensures forall n :: n in m.comp ==> m.comp[n] < m.comps
    ensures forall i :: 0 <= i < |stack[at..]| ==> stack[at..][i] !in m.comp
  {
    hide Reach;
    StackSuffix(g, m, stack, 0);
    forall i | 0 <= i < |stack| ensures stack[i] in m.onstk { assert stack[i] in Elems(stack); }
  }

  /** Once every open call has returned, the finished components give the promised order. */
  lemma SearchDone(g: Graph<EaCmd>, m0: Marks<EaCmd>, m: Marks<EaCmd>, root: EaCmd, res: seq<EaCmd>)
    requires forall n :: n in m0.dfn ==> m0.dfn[n] == 0
    requires m0.dfn.Keys == g.Keys && root in g
    requires VisitPost(g, m0, m, {}, root) && Ordered(res, m.comp)
    ensures SccOrder(g, root, res, SeqNos(res)) && m.onstk == {}
  {
    hide *;
    DoneVisited(g, m0, m, root);
    DoneNodes(g, m, root, res);
    DoneOrder(g, m, res);
    DoneParts(g, m, root, res);
  }

  lemma DoneNodes(g: Graph<EaCmd>, m: Marks<EaCmd>, root: EaCmd, res: seq<EaCmd>)
    requires root in m.comp && Finished(g, m.comp, m.comps) && Ordered(res, m.comp)
    requires forall n :: n in m.comp ==> n in g && Reach(g, root, n)
    ensures forall n :: n in res ==> n in g && Reach(g, root, n)
    ensures forall n :: n in g && Reach(g, root, n) ==> n in res
  {
    hide Reach, Finished;
    forall n | n in g && Reach(g, root, n) ensures n in res {
      DoneRank(g, m, root, n);
    }
    forall n | n in res ensures n in m.comp {
      assert n in Elems(res);
    }
  }

  lemma DoneParts(g: Graph<EaCmd>, m: Marks<EaCmd>, root: EaCmd, res: seq<EaCmd>)
    requires Ordered(res, m.comp) && DepsFirst(g, res)
    requires forall n :: n in res ==> n in g && Reach(g, root, n)
    requires forall n :: n in g && Reach(g, root, n) ==> n in res
    requires forall i, j, k :: 0 <= i < j < k < |res| && SameScc(g, res[i], res[k]) ==> SameScc(g, res[i], res[j])
    requires forall i, j :: 0 <= i < j < |res| && SameScc(g, res[i], res[j]) ==> res[i].ins.seqno >= res[j].ins.seqno
    ensures SccOrder(g, root, res, SeqNos(res))
  {
    hide Reach, SameScc, DepsFirst;
  }

  lemma DoneOrder(g: Graph<EaCmd>, m: Marks<EaCmd>, res: seq<EaCmd>)
    requires Finished(g, m.comp, m.comps) && Ordered(res, m.comp)
    ensures DepsFirst(g, res)
    ensures forall i, j, k :: 0 <= i < j < k < |res| && SameScc(g, res[i], res[k]) ==> SameScc(g, res[i], res[j])
    ensures forall i, j :: 0 <= i < j < |res| && SameScc(g, res[i], res[j]) ==> res[i].ins.seqno >= res[j].ins.seqno
  {
    hide Reach, Finished;
    forall i | 0 <= i < |res| ensures res[i] in m.comp {
      assert res[i] in Elems(res);
    }
    forall i, j | 0 <= i < j < |res| && Reach(g, res[i], res[j])
      ensures Reach(g, res[j], res[i]) && m.comp[res[i]] == m.comp[res[j]]
    {
      DoneRank(g, m, res[i], res[j]);
      DoneSame(g, m, res[j], res[i]);
    }
    forall i, j, k | 0 <= i < j < k < |res| && SameScc(g, res[i], res[k])
      ensures SameScc(g, res[i], res[j])
    {
      DoneSame(g, m, res[i], res[j]);
      DoneSame(g, m, res[j], res[i]);
    }
  }

  lemma DoneVisited(g: Graph<EaCmd>, m0: Marks<EaCmd>, m: Marks<EaCmd>, root: EaCmd)
    requires forall n :: n in m0.dfn ==> m0.dfn[n] == 0
    requires m0.dfn.Keys == g.Keys && root in g && VisitPost(g, m0, m, {}, root)
    ensures m.onstk == {} && root in m.comp && Finished(g, m.comp, m.comps)
    ensures forall n :: n in m.comp ==> n in g && Reach(g, root, n)
  {
    hide Reach, LowBound, LowWitness, NoBlackToWhite, StackReach, Finished;
    assert m.onstk == {} by {
      if n :| n in m.onstk {
        var a := Anchor(g, m.dfn, {}, n);
      }
    }
  }

  lemma DoneRank(g: Graph<EaCmd>, m: Marks<EaCmd>, a: EaCmd, b: EaCmd)
    requires Finished(g, m.comp, m.comps) && a in m.comp && Reach(g, a, b)
    ensures b in m.comp && m.comp[b] <= m.comp[a]
  {
    var k: nat :| Walk(g, a, b, k);
    WalkRank(g, m.comp, a, b, k);
  }

  lemma DoneSame(g: Graph<EaCmd>, m: Marks<EaCmd>, a: EaCmd, b: EaCmd)
    requires Finished(g, m.comp, m.comps) && a in m.comp && b in m.comp && m.comp[a] == m.comp[b]
    ensures Reach(g, a, b)
  {
    hide Reach;
  }

  ghost function Unvisited(m: Marks<EaCmd>): (u: set<EaCmd>) {
    set n | n in m.dfn && m.dfn[n] == 0
  }

  lemma EmptyStack(m: Marks<EaCmd>, stack: seq<EaCmd>)
    requires StackLists(m, stack) && stack != []
    ensures m.onstk != {}
  {
    assert stack[0] in Elems(stack);
  }

  lemma SameStack(m: Marks<EaCmd>, m': Marks<EaCmd>, stack: seq<EaCmd>)
    requires StackLists(m, stack) && m'.dfn == m.dfn && m'.onstk == m.onstk
    ensures StackLists(m', stack)
  {
  }

  lemma LowerUnvisited(m: Marks<EaCmd>, c: EaCmd, v: nat)
    requires c in m.low
    ensures Unvisited(Lower(m, c, v)) == Unvisited(m)
  {
  }

  lemma LoopFacts(g: Graph<EaCmd>, m0: Marks<EaCmd>, m: Marks<EaCmd>, gray: set<EaCmd>, c: EaCmd, seen: set<EaCmd>,
      d: EaCmd)
    requires LoopInv(g, m0, m, gray, c, seen) && d in g[c]
    requires forall a :: a in gray ==> Reach(g, a, c)
    ensures c in g && d in g && m.dfn.Keys == m.low.Keys == g.Keys && Inv(g, m, gray + {c})
    ensures forall a :: a in gray + {c} ==> Reach(g, a, d)
  {
    hide Reach, Finished, NoBlackToWhite, StackReach, AllAnchored, Extends, LowWitness, LowBound, Seen;
    ReachEdge(g, c, d);
    forall a | a in gray + {c} ensures Reach(g, a, d) {
      if a != c {
        ReachTrans(g, a, c, d);
      }
    }
  }

  lemma AfterVisit(g: Graph<EaCmd>, m: Marks<EaCmd>, m': Marks<EaCmd>, gray: set<EaCmd>, d: EaCmd)
    requires VisitPost(g, m, m', gray, d) && m.dfn.Keys == g.Keys
    ensures m'.low.Keys == g.Keys && m'.dfn.Keys == g.Keys && Unvisited(m') <= Unvisited(m)
  {
    hide Reach, Finished, NoBlackToWhite, StackReach, AllAnchored, LowWitness, LowBound, KeepsComponents;
  }

  lemma EnterStack(g: Graph<EaCmd>, m: Marks<EaCmd>, stack: seq<EaCmd>, gray: set<EaCmd>, c: EaCmd)
    requires Inv(g, m, gray) && StackLists(m, stack) && c in g && m.dfn[c] == 0
    ensures StackLists(Push(m, c), stack + [c]) && Unvisited(Push(m, c)) < Unvisited(m)
  {
    hide StackLists, Reach, Finished, NoBlackToWhite, StackReach, AllAnchored;
    StackAfterPush(g, m, stack, c);
    assert c in Unvisited(m);
  }

  lemma LoopShape(g: Graph<EaCmd>, m0: Marks<EaCmd>, m: Marks<EaCmd>, gray: set<EaCmd>, c: EaCmd)
    requires c in g && LoopInv(g, m0, m, gray, c, g[c])
    ensures Numbered(g, m.cnt, m.dfn, m.onstk, m.comp) && Finished(g, m.comp, m.comps)
  {
    hide Reach, Finished, Numbered, NoBlackToWhite, StackReach, AllAnchored, Extends, LowWitness, LowBound, Seen;
  }

  method Number(cmd: EaCmd, v: nat, ghost nodes: set<EaCmd>)
    requires cmd in nodes
    modifies cmd`dfn, cmd`low
    ensures DfnOf(nodes) == old(DfnOf(nodes))[cmd := v] && LowOf(nodes) == old(LowOf(nodes))[cmd := v]
  {
    cmd.dfn := v;
    cmd.low := v;
  }

  method MarkOnStack(cmd: EaCmd, ghost nodes: set<EaCmd>)
    requires cmd in nodes
    modifies cmd`instk
    ensures OnStack(nodes) == old(OnStack(nodes)) + {cmd}
  {
    cmd.instk := true;
  }

  class EaContext {
    var vis: map<InstanceId, EaCmd>
    var dfncnt: nat
    var stack: seq<EaCmd>
    var res: seq<EaCmd>
    ghost var comp: map<EaCmd, nat>
    ghost var comps: nat

    constructor ()
      ensures vis == map[] && dfncnt == 0 && stack == [] && res == [] && comp == map[] && comps == 0
    {
      vis, dfncnt, stack, res, comp, comps := map[], 0, [], [], map[], 0;
    }

    ghost function Snap(nodes: set<EaCmd>): (m: Marks<EaCmd>)
      reads this, nodes
    {
      Marks(dfncnt, DfnOf(nodes), LowOf(nodes), OnStack(nodes), comp, comps)
    }

    ghost predicate Searching(nodes: set<EaCmd>)
      reads this, nodes
    {
      StackLists(Snap(nodes), stack) && Ordered(res, comp)
    }

    lemma SnapNumbers(nodes: set<EaCmd>)
      ensures var m := Snap(nodes); m.dfn.Keys == nodes && forall c :: c in nodes ==> m.dfn[c] == c.dfn
    {
    }

    lemma SnapAt(c: EaCmd, nodes: set<EaCmd>)
      requires c in nodes
      ensures var m := Snap(nodes);
        && m.dfn.Keys == m.low.Keys == nodes
        && m.dfn[c] == c.dfn && m.low[c] == c.low && (c in m.onstk <==> c.instk)
    {
    }

    method Enter(cmd: EaCmd, ghost nodes: set<EaCmd>)
      requires cmd in nodes
      modifies this`dfncnt, this`stack, cmd`dfn, cmd`low, cmd`instk
      ensures Snap(nodes) == Push(old(Snap(nodes)), cmd)
      ensures stack == old(stack) + [cmd]
    {
      dfncnt := dfncnt + 1;
      Number(cmd, dfncnt, nodes);
      hide DfnOf, LowOf, OnStack;
      MarkOnStack(cmd, nodes);
      stack := stack + [cmd];
    }

    method LowerTo(cmd: EaCmd, v: nat, ghost nodes: set<EaCmd>)
      requires cmd in nodes && Searching(nodes)
      modifies cmd`low
      ensures Searching(nodes)
      ensures cmd in old(Snap(nodes)).low && Snap(nodes) == Lower(old(Snap(nodes)), cmd, v)
    {
      hide StackLists;
      ghost var m := Snap(nodes);
      cmd.low := if cmd.low < v then cmd.low else v;
      assert Snap(nodes) == Lower(m, cmd, v);
      SameStack(m, Snap(nodes), stack);
    }

    method CutStack(cmd: EaCmd, ghost at: nat, ghost nodes: set<EaCmd>) returns (scc: seq<EaCmd>)
      requires at < |stack| && stack[at] == cmd
      requires forall i :: 0 <= i < |stack| ==> stack[i] in nodes
      requires forall i :: at < i < |stack| ==> stack[i] != cmd
      modifies this`stack, nodes`instk
      ensures scc == old(stack[at..]) && stack == old(stack[..at])
      ensures forall n :: n in nodes ==> n.instk == (old(n.instk) && n !in scc)
    {
      var n := |stack| - 1;
      while stack[n] != cmd
        invariant at <= n < |stack| && stack == old(stack)
        invariant forall c :: c in nodes ==> c.instk == (old(c.instk) && c !in stack[n + 1..])
        decreases n
      {
        stack[n].instk := false;
        assert stack[n..] == [stack[n]] + stack[n + 1..];
        n := n - 1;
      }
      stack[n].instk := false;
      assert stack[n..] == [stack[n]] + stack[n + 1..];
      scc := stack[n..];
      stack := stack[..n];
    }

    method TakeScc(cmd: EaCmd, ghost at: nat, ghost nodes: set<EaCmd>) returns (sorted: seq<EaCmd>)
      requires at < |stack| && stack[at] == cmd
      requires forall i :: 0 <= i < |stack| ==> stack[i] in nodes
      requires forall i :: at < i < |stack| ==> stack[i] != cmd
      modifies this`stack, nodes`instk
      ensures SortedBySeq(sorted) && multiset(sorted) == multiset(old(stack[at..])) && stack == old(stack[..at])
      ensures OnStack(nodes) == old(OnStack(nodes)) - Elems(old(stack[at..]))
    {
      var scc := CutStack(cmd, at, nodes);
      sorted := scc;
      if |scc| > 1 {
        sorted := SortBySeq(scc);
      }
    }

    method PopScc(cmd: EaCmd, ghost at: nat, ghost nodes: set<EaCmd>)
      requires Searching(nodes) && at < |stack| && stack[at] == cmd
      requires var g := SuccessorsOf(nodes); var m := Snap(nodes);
        Numbered(g, m.cnt, m.dfn, m.onstk, m.comp) && Finished(g, m.comp, m.comps)
      modifies this`stack, this`res, this`comp, this`comps, nodes`instk
      ensures Searching(nodes) && stack == old(stack[..at])
      ensures cmd in nodes && Snap(nodes) == Pop(old(Snap(nodes)), Component(old(Snap(nodes)), old(cmd.dfn)))
    {
      hide Numbered, Finished, StackLists, Ordered, Component, SortedBySeq, Reach, OnStack, DfnOf, LowOf;
      ghost var g, m, stk, res0 := SuccessorsOf(nodes), Snap(nodes), stack, res;
      StackSuffix(g, m, stack, at);
      SnapNumbers(nodes);
      var sorted := TakeScc(cmd, at, nodes);
      ghost var done := Elems(stk[at..]);
      comp, comps := Pop(m, done).comp, comps + 1;
      res := res + sorted;
      assert Snap(nodes) == Pop(m, done);
      PopLists(g, m, stk, at, res0, sorted);
    }

    /** One turn of the loop over the dependencies of cmd. */
    method VisitDep(cmd: EaCmd, dep: EaCmd, ghost nodes: set<EaCmd>, ghost g: Graph<EaCmd>, ghost gray: set<EaCmd>,
                    ghost m0: Marks<EaCmd>, ghost seen: set<EaCmd>)
      requires g == SuccessorsOf(nodes) && Searching(nodes)
      requires LoopInv(g, m0, Snap(nodes), gray, cmd, seen) && dep in g[cmd]
      requires forall a :: a in gray ==> Reach(g, a, cmd)
      modifies this`dfncnt, this`stack, this`res, this`comp, this`comps, nodes`dfn, nodes`low, nodes`instk
      ensures Searching(nodes) && old(stack) <= stack
      ensures LoopInv(g, m0, Snap(nodes), gray, cmd, seen + {dep})
      ensures Unvisited(Snap(nodes)) <= old(Unvisited(Snap(nodes)))
      decreases Unvisited(Snap(nodes)), 1
    {
      hide LoopInv, VisitPost, Inv, Snap, Searching, Lower, Reach, Unvisited;
      ghost var m := Snap(nodes);
      LoopFacts(g, m0, m, gray, cmd, seen, dep);
      SnapAt(dep, nodes);
      if dep.dfn == 0 {
        ResolveScc(dep, nodes, g, gray + {cmd});
        ghost var m' := Snap(nodes);
        SnapAt(dep, nodes);
        AfterVisit(g, m, m', gray + {cmd}, dep);
        TreeEdge(g, m0, m, m', gray, cmd, seen, dep);
        LowerTo(cmd, dep.low, nodes);
        LowerUnvisited(m', cmd, m'.low[dep]);
      } else if dep.instk {
        BackEdge(g, m0, m, gray, cmd, seen, dep);
        LowerTo(cmd, dep.dfn, nodes);
        LowerUnvisited(m, cmd, m.dfn[dep]);
      } else {
        SkipFinished(g, m0, m, gray, cmd, seen, dep);
      }
    }

    /** Numbers cmd and puts it on the stack. */
    method Open(cmd: EaCmd, ghost nodes: set<EaCmd>, ghost g: Graph<EaCmd>, ghost gray: set<EaCmd>)
      requires g == SuccessorsOf(nodes) && Searching(nodes)
      requires Inv(g, Snap(nodes), gray) && cmd in nodes && cmd.dfn == 0
      requires forall a :: a in gray ==> Reach(g, a, cmd)
      modifies this`dfncnt, this`stack, cmd`dfn, cmd`low, cmd`instk
      ensures Searching(nodes) && stack == old(stack) + [cmd]
      ensures LoopInv(g, old(Snap(nodes)), Snap(nodes), gray, cmd, {})
      ensures Unvisited(Snap(nodes)) < old(Unvisited(Snap(nodes)))
    {
      hide Inv, LoopInv, Reach, StackLists, Ordered, Push, Snap, Unvisited;
      ghost var m0, stk := Snap(nodes), stack;
      SnapAt(cmd, nodes);
      PushStarts(g, m0, gray, cmd);
      EnterStack(g, m0, stk, gray, cmd);
      Enter(cmd, nodes);
    }

    /** With all dependencies of cmd visited, takes its component off the stack if cmd is its root. */
    method Close(cmd: EaCmd, ghost nodes: set<EaCmd>, ghost g: Graph<EaCmd>, ghost gray: set<EaCmd>,
                 ghost m0: Marks<EaCmd>, ghost at: nat)
      requires g == SuccessorsOf(nodes) && Searching(nodes) && at < |stack| && stack[at] == cmd
      requires cmd in g && LoopInv(g, m0, Snap(nodes), gray, cmd, g[cmd])
      modifies this`stack, this`res, this`comp, this`comps, nodes`instk
      ensures Searching(nodes) && old(stack[..at]) <= stack
      ensures VisitPost(g, m0, Snap(nodes), gray, cmd)
    {
      hide Inv, LoopInv, VisitPost, Numbered, Finished, Reach, StackLists, Ordered, Snap, Component, Pop;
      ghost var m := Snap(nodes);
      SnapAt(cmd, nodes);
      if cmd.dfn == cmd.low {
        LoopShape(g, m0, m, gray, cmd);
        LeaveRoot(g, m0, m, gray, cmd);
        PopScc(cmd, at, nodes);
      } else {
        LeaveOpen(g, m0, m, gray, cmd);
      }
    }

    method ResolveScc(cmd: EaCmd, ghost nodes: set<EaCmd>, ghost g: Graph<EaCmd>, ghost gray: set<EaCmd>)
      requires g == SuccessorsOf(nodes) && Searching(nodes)
      requires Inv(g, Snap(nodes), gray) && cmd in nodes && cmd.dfn == 0
      requires forall a :: a in gray ==> Reach(g, a, cmd)
      modifies this`dfncnt, this`stack, this`res, this`comp, this`comps, nodes`dfn, nodes`low, nodes`instk
      ensures Searching(nodes) && old(stack) <= stack
      ensures VisitPost(g, old(Snap(nodes)), Snap(nodes), gray, cmd)
      decreases Unvisited(Snap(nodes)), 0
    {
      hide Inv, LoopInv, VisitPost, Reach, Searching, Snap, Unvisited;
      ghost var m0, stk := Snap(nodes), stack;
      Open(cmd, nodes, g, gray);
      ghost var seen: set<EaCmd> := {};
      for i := 0 to |cmd.deps|
        invariant Searching(nodes) && stk + [cmd] <= stack
        invariant seen == Elems(cmd.deps[..i])
        invariant LoopInv(g, m0, Snap(nodes), gray, cmd, seen)
        invariant Unvisited(Snap(nodes)) < Unvisited(m0)
      {
        assert cmd.deps[..i + 1] == cmd.deps[..i] + [cmd.deps[i]];
        VisitDep(cmd, cmd.deps[i], nodes, g, gray, m0, seen);
        seen := seen + {cmd.deps[i]};
      }
      assert cmd.deps[..|cmd.deps|] == cmd.deps;
      assert seen == g[cmd];
      Close(cmd, nodes, g, gray, m0, |stk|);
    }
  }

  // ---- building the graph -----------------------------------------------------------------------

  /** The dependency graph of the stored instances. */
  ghost function IdGraph(cmds: map<InstanceId, Instance>): (g: Graph<InstanceId>) {
    map id | id in cmds :: cmds[id].deps
  }

  /** Every instance of ids is stored under its own id, and so are all its dependencies. */
  ghost predicate DepsStored(cmds: map<InstanceId, Instance>, ids: set<InstanceId>) {
    forall id :: id in ids ==> id in cmds && cmds[id].i == id && cmds[id].deps <= ids
  }

  /** The node built for id: the stored instance, linked to the nodes of its dependencies, not yet searched. */
  ghost predicate Built(cmds: map<InstanceId, Instance>, vis: map<InstanceId, EaCmd>, id: InstanceId)
    requires id in vis
    reads vis[id]
  {
    var c := vis[id];
    && id in cmds && c.ins == cmds[id] && c.dfn == 0 && c.low == 0 && !c.instk
    && Linked(c.deps, cmds[id].deps, vis)
  }

  ghost predicate AllBuilt(cmds: map<InstanceId, Instance>, vis: map<InstanceId, EaCmd>, ids: set<InstanceId>)
    reads set id | id in vis :: vis[id]
  {
    forall id :: id in ids ==> id in vis && Built(cmds, vis, id)
  }

  ghost predicate Grows(vis: map<InstanceId, EaCmd>, vis': map<InstanceId, EaCmd>) {
    forall id :: id in vis ==> id in vis' && vis'[id] == vis[id]
  }

  lemma BuiltGrows(cmds: map<InstanceId, Instance>, vis: map<InstanceId, EaCmd>, vis': map<InstanceId, EaCmd>,
      id: InstanceId)
    requires id in vis && Built(cmds, vis, id) && Grows(vis, vis')
    ensures id in vis' && Built(cmds, vis', id)
  {
    var ds := cmds[id].deps;
    assert (set d | d in ds && d in vis :: vis[d]) == (set d | d in ds && d in vis' :: vis'[d]);
  }

  /** What a call may do to the table: add nodes that are new, complete and reachable from `from`. */
  twostate predicate Collected(ctx: EaContext, cmds: map<InstanceId, Instance>, from: InstanceId, ids: set<InstanceId>)
    reads ctx, set id | id in ctx.vis :: ctx.vis[id]
  {
    && Grows(old(ctx.vis), ctx.vis) && ctx.vis.Keys <= old(ctx.vis.Keys) + ids
    && forall id :: id in ctx.vis.Keys - old(ctx.vis.Keys) ==>
         fresh(ctx.vis[id]) && Built(cmds, ctx.vis, id) && Reach(IdGraph(cmds), from, id)
  }

  method CollectDep(ctx: EaContext, cmds: map<InstanceId, Instance>, ghost from: InstanceId, depId: InstanceId,
      ghost ids: set<InstanceId>)
    returns (depCmd: EaCmd)
    requires DepsStored(cmds, ids) && from in ids && depId in cmds[from].deps
    modifies ctx`vis
    ensures Collected(ctx, cmds, from, ids) && depId in ctx.vis && ctx.vis[depId] == depCmd
    decreases ids - ctx.vis.Keys, 1
  {
    hide Reach;
    if depId in ctx.vis {
      depCmd := ctx.vis[depId];
    } else {
      depCmd := CollectCmds(ctx, cmds, cmds[depId], ids);
      ctx.vis := ctx.vis[depId := depCmd];
      ghost var g := IdGraph(cmds);
      ReachEdge(g, from, depId);
      forall id | id in ctx.vis.Keys - old(ctx.vis.Keys) ensures Reach(g, from, id) {
        ReachTrans(g, from, depId, id);
      }
    }
  }

  method CollectCmds(ctx: EaContext, cmds: map<InstanceId, Instance>, root: Instance, ghost ids: set<InstanceId>)
    returns (cmd: EaCmd)
    requires DepsStored(cmds, ids) && root.i in ids && cmds[root.i] == root && root.i !in ctx.vis
    modifies ctx`vis
    ensures Collected(ctx, cmds, root.i, ids) && root.i in ctx.vis && ctx.vis[root.i] == cmd
    decreases ids - ctx.vis.Keys, 0
  {
    hide Reach;
    cmd := new EaCmd(root);
    ctx.vis := ctx.vis[root.i := cmd];
    var todo := root.deps;
    ghost var g, known := IdGraph(cmds), old(ctx.vis.Keys) + {root.i};
    ReachRefl(g, root.i);
    while todo != {}
      invariant todo <= root.deps
      invariant root.i in ctx.vis && ctx.vis[root.i] == cmd && Grows(old(ctx.vis), ctx.vis)
      invariant ctx.vis.Keys <= known + ids
      invariant cmd.dfn == 0 && cmd.low == 0 && !cmd.instk
      invariant Linked(cmd.deps, root.deps - todo, ctx.vis)
      invariant forall id :: id in ctx.vis.Keys - known ==>
        fresh(ctx.vis[id]) && ctx.vis[id] != cmd && Built(cmds, ctx.vis, id) && Reach(g, root.i, id)
    {
      var depId :| depId in todo;
      ghost var vis := ctx.vis;
      var depCmd := CollectDep(ctx, cmds, root.i, depId, ids);
      forall id | id in vis.Keys - known ensures Built(cmds, ctx.vis, id) {
        BuiltGrows(cmds, vis, ctx.vis, id);
      }
      LinkOne(cmd.deps, root.deps - todo, vis, ctx.vis, depId);
      assert root.deps - (todo - {depId}) == (root.deps - todo) + {depId};
      todo := todo - {depId};
      cmd.deps := cmd.deps + [depCmd];
    }
    assert root.deps - todo == root.deps;
  }

  /** The nodes of ds are exactly those listed in deps. */
  ghost predicate Linked(deps: seq<EaCmd>, ds: set<InstanceId>, vis: map<InstanceId, EaCmd>) {
    ds <= vis.Keys && Elems(deps) == (set d | d in ds && d in vis :: vis[d])
  }

  lemma LinkedTo(deps: seq<EaCmd>, ds: set<InstanceId>, vis: map<InstanceId, EaCmd>, e: EaCmd)
    requires Linked(deps, ds, vis) && e in deps
    ensures exists d :: d in ds && d in vis && vis[d] == e
  {
    assert e in Elems(deps);
  }

  lemma LinkOne(deps: seq<EaCmd>, ds: set<InstanceId>, vis: map<InstanceId, EaCmd>, vis': map<InstanceId, EaCmd>,
      d: InstanceId)
    requires Linked(deps, ds, vis) && Grows(vis, vis') && d in vis'
    ensures Linked(deps + [vis'[d]], ds + {d}, vis')
  {
    assert (set x | x in ds && x in vis :: vis[x]) == (set x | x in ds && x in vis' :: vis'[x]);
    assert Elems(deps + [vis'[d]]) == Elems(deps) + {vis'[d]};
  }

  // ---- the execution order of a committed command -----------------------------------------------

  /** The node graph is a copy of the part of the id graph that vis names. */
  ghost predicate Copies(vis: map<InstanceId, EaCmd>, ids: Graph<InstanceId>, g: Graph<EaCmd>) {
    && (forall a, b :: a in vis && b in vis && vis[a] == vis[b] ==> a == b)
    && (forall a :: a in vis ==> a in ids && ids[a] <= vis.Keys && vis[a] in g)
    && (forall a :: a in vis && vis[a] in g && a in ids ==> g[vis[a]] == (set d | d in ids[a] && d in vis :: vis[d]))
  }

  lemma {:induction false} WalkToNodes(vis: map<InstanceId, EaCmd>, ids: Graph<InstanceId>, g: Graph<EaCmd>,
      a: InstanceId, b: InstanceId, k: nat)
    requires Copies(vis, ids, g) && a in vis && Walk(ids, a, b, k)
    ensures b in vis && Walk(g, vis[a], vis[b], k)
    decreases k
  {
    if k > 0 {
      var x :| x in ids[a] && Walk(ids, x, b, k - 1);
      WalkToNodes(vis, ids, g, x, b, k - 1);
      assert vis[x] in g[vis[a]];
    }
  }

  lemma {:induction false} WalkToIds(vis: map<InstanceId, EaCmd>, ids: Graph<InstanceId>, g: Graph<EaCmd>,
      a: InstanceId, n: EaCmd, k: nat)
    returns (b: InstanceId)
    requires Copies(vis, ids, g) && a in vis && Walk(g, vis[a], n, k)
    ensures b in vis && vis[b] == n && Walk(ids, a, b, k)
    decreases k
  {
    if k == 0 {
      b := a;
    } else {
      var y :| y in g[vis[a]] && Walk(g, y, n, k - 1);
      assert y in (set d | d in ids[a] && d in vis :: vis[d]);
      var x :| x in ids[a] && x in vis && vis[x] == y;
      b := WalkToIds(vis, ids, g, x, n, k - 1);
    }
  }

  lemma ReachCopies(vis: map<InstanceId, EaCmd>, ids: Graph<InstanceId>, g: Graph<EaCmd>, a: InstanceId, b: InstanceId)
    requires Copies(vis, ids, g) && a in vis
    ensures Reach(ids, a, b) <==> b in vis && Reach(g, vis[a], vis[b])
  {
    if Reach(ids, a, b) {
      var k: nat :| Walk(ids, a, b, k);
      WalkToNodes(vis, ids, g, a, b, k);
    }
    if b in vis && Reach(g, vis[a], vis[b]) {
      var k: nat :| Walk(g, vis[a], vis[b], k);
      var x := WalkToIds(vis, ids, g, a, vis[b], k);
    }
  }

  /** An order of the copy is an order of the original. */
  lemma OrderCopies(vis: map<InstanceId, EaCmd>, ids: Graph<InstanceId>, g: Graph<EaCmd>, root: InstanceId,
      res: seq<EaCmd>, order: seq<InstanceId>, seqnos: seq<nat>)
    requires Copies(vis, ids, g) && root in vis && SccOrder(g, vis[root], res, seqnos)
    requires |order| == |res| && forall i :: 0 <= i < |res| ==> order[i] in vis && vis[order[i]] == res[i]
    ensures SccOrder(ids, root, order, seqnos)
  {
    hide Reach, Copies;
    forall i, j | 0 <= i < |res| && 0 <= j < |res|
      ensures Reach(ids, order[i], order[j]) <==> Reach(g, res[i], res[j])
    {
      ReachCopies(vis, ids, g, order[i], order[j]);
    }
    forall n | n in ids && Reach(ids, root, n) ensures n in order {
      ReachCopies(vis, ids, g, root, n);
      CopiedNode(vis, ids, g, n);
      var i :| 0 <= i < |res| && res[i] == vis[n];
      CopiedOnce(vis, ids, g, n, order[i]);
    }
    forall n | n in order ensures n in ids && Reach(ids, root, n) {
      var i :| 0 <= i < |order| && order[i] == n;
      ReachCopies(vis, ids, g, root, n);
      CopiedNode(vis, ids, g, n);
    }
  }

  lemma CopiedNode(vis: map<InstanceId, EaCmd>, ids: Graph<InstanceId>, g: Graph<EaCmd>, a: InstanceId)
    requires Copies(vis, ids, g) && a in vis
    ensures a in ids && vis[a] in g
  {
  }

  lemma CopiedOnce(vis: map<InstanceId, EaCmd>, ids: Graph<InstanceId>, g: Graph<EaCmd>, a: InstanceId, b: InstanceId)
    requires Copies(vis, ids, g) && a in vis && b in vis && vis[a] == vis[b]
    ensures a == b
  {
  }

  lemma FreshSearch(g: Graph<EaCmd>, m: Marks<EaCmd>)
    requires Closed(g) && m.dfn.Keys == g.Keys && m.low.Keys == g.Keys && m.onstk == {} && m.comp == map[]
    requires m.comps == 0
    requires forall n :: n in m.dfn ==> m.dfn[n] == 0
    ensures Inv(g, m, {})
  {
  }

  lemma BuiltCopies(cmds: map<InstanceId, Instance>, vis: map<InstanceId, EaCmd>, nodes: set<EaCmd>,
      ids: set<InstanceId>)
    requires DepsStored(cmds, ids) && vis.Keys <= ids && nodes == vis.Values && AllBuilt(cmds, vis, vis.Keys)
    ensures Copies(vis, IdGraph(cmds), SuccessorsOf(nodes)) && Closed(SuccessorsOf(nodes))
    ensures forall n :: n in nodes ==>
      n.dfn == 0 && !n.instk && n.ins.i in vis && vis[n.ins.i] == n && cmds[n.ins.i] == n.ins
  {
    forall n | n in nodes
      ensures n.dfn == 0 && !n.instk && n.ins.i in vis && vis[n.ins.i] == n && cmds[n.ins.i] == n.ins
      ensures forall e :: e in n.deps ==> e in nodes
    {
      var id :| id in vis && vis[id] == n;
      assert Built(cmds, vis, id);
      forall e | e in n.deps ensures e in nodes {
        LinkedTo(n.deps, cmds[id].deps, vis, e);
      }
    }
    forall a, b | a in vis && b in vis && vis[a] == vis[b] ensures a == b {
      assert Built(cmds, vis, a) && Built(cmds, vis, b);
    }
    forall a | a in vis ensures SuccessorsOf(nodes)[vis[a]] == (set d | d in cmds[a].deps && d in vis :: vis[d]) {
      assert Built(cmds, vis, a);
    }
  }

  function Order(res: seq<EaCmd>): (order: seq<Instance>)
    ensures |order| == |res| && forall i :: 0 <= i < |res| ==> order[i] == res[i].ins
  {
    seq(|res|, i requires 0 <= i < |res| => res[i].ins)
  }

  ghost function Ids(order: seq<Instance>): (ids: seq<InstanceId>)
    ensures |ids| == |order| && forall i :: 0 <= i < |order| ==> ids[i] == order[i].i
  {
    seq(|order|, i requires 0 <= i < |order| => order[i].i)
  }

  ghost function Seqs(order: seq<Instance>): (r: seq<nat>)
    ensures |r| == |order| && forall i :: 0 <= i < |order| ==> r[i] == order[i].seqno
  {
    seq(|order|, i requires 0 <= i < |order| => order[i].seqno)
  }

  /** The search from a root over a graph with fresh marks. */
  method ResolveRoot(ctx: EaContext, root: EaCmd, ghost nodes: set<EaCmd>)
    requires root in nodes && Closed(SuccessorsOf(nodes)) && forall n :: n in nodes ==> n.dfn == 0 && !n.instk
    requires ctx.stack == [] && ctx.res == [] && ctx.comp == map[] && ctx.comps == 0
    modifies ctx`dfncnt, ctx`stack, ctx`res, ctx`comp, ctx`comps, nodes`dfn, nodes`low, nodes`instk
    ensures SccOrder(SuccessorsOf(nodes), root, ctx.res, SeqNos(ctx.res)) && ctx.stack == []
  {
    hide Reach, SccOrder, VisitPost, Inv;
    ghost var g, m0 := SuccessorsOf(nodes), ctx.Snap(nodes);
    FreshSearch(g, m0);
    assert ctx.Searching(nodes);
    ctx.ResolveScc(root, nodes, g, {});
    SearchDone(g, m0, ctx.Snap(nodes), root, ctx.res);
    hide StackLists;
    if ctx.stack != [] {
      EmptyStack(ctx.Snap(nodes), ctx.stack);
    }
  }

  lemma OrderOfNodes(cmds: map<InstanceId, Instance>, vis: map<InstanceId, EaCmd>, g: Graph<EaCmd>, root: InstanceId,
      res: seq<EaCmd>, order: seq<Instance>)
    requires Copies(vis, IdGraph(cmds), g) && root in vis && SccOrder(g, vis[root], res, SeqNos(res))
    requires order == Order(res)
    requires forall n :: n in g ==> n.ins.i in vis && vis[n.ins.i] == n && n.ins.i in cmds && cmds[n.ins.i] == n.ins
    ensures SccOrder(IdGraph(cmds), root, Ids(order), Seqs(order))
    ensures forall i :: 0 <= i < |order| ==> order[i].i in cmds && cmds[order[i].i] == order[i]
  {
    hide Reach, Copies;
    forall i | 0 <= i < |res| ensures res[i] in g {
      assert res[i] in res;
    }
    hide SccOrder;
    assert Seqs(order) == SeqNos(res);
    OrderCopies(vis, IdGraph(cmds), g, root, res, Ids(order), Seqs(order));
  }

  /** Collects the dependency graph of a committed command and orders it. */
  method OrderCommands(cmds: map<InstanceId, Instance>, root: Instance, ghost ids: set<InstanceId>)
    returns (order: seq<Instance>)
    requires DepsStored(cmds, ids) && root.i in ids && cmds[root.i] == root
    ensures SccOrder(IdGraph(cmds), root.i, Ids(order), Seqs(order))
    ensures forall i :: 0 <= i < |order| ==> order[i].i in cmds && cmds[order[i].i] == order[i]
  {
    hide Reach, Copies, Closed, SccOrder, IdGraph, Grows, Built;
    var ctx := new EaContext();
    var cmd := CollectCmds(ctx, cmds, root, ids);
    ghost var vis, nodes := ctx.vis, ctx.vis.Values;
    BuiltCopies(cmds, vis, nodes, ids);
    ghost var g := SuccessorsOf(nodes);
    assert forall n :: n in nodes ==> n.ins.i in cmds && cmds[n.ins.i] == n.ins;
    hide AllBuilt, DepsStored;
    ResolveRoot(ctx, cmd, nodes);
    order := Order(ctx.res);
    OrderOfNodes(cmds, vis, g, root.i, ctx.res, order);
  }

  // ---- the order in which commands are applied --------------------------------------------------

  ghost function Reversed<T>(s: seq<T>): (r: seq<T>)
    ensures |r| == |s| && forall i :: 0 <= i < |s| ==> r[i] == s[|s| - 1 - i]
  {
    seq(|s|, i requires 0 <= i < |s| => s[|s| - 1 - i])
  }

  /** Commands are applied from the end of the order; that respects dependencies exactly when everything the root
      depends on depends on the root. */
  lemma ApplyOrder<N>(g: Graph<N>, root: N, res: seq<N>, seqnos: seq<nat>)
    requires SccOrder(g, root, res, seqnos) && root in g
    ensures DepsFirst(g, Reversed(res)) <==> forall n :: n in g && Reach(g, root, n) ==> Reach(g, n, root)
  {
    hide Reach;
    var rev := Reversed(res);
    ReachRefl(g, root);
    var p :| 0 <= p < |res| && res[p] == root;
    if DepsFirst(g, rev) {
      forall n | n in g && Reach(g, root, n) ensures Reach(g, n, root) {
        var q :| 0 <= q < |res| && res[q] == n;
        assert rev[|res| - 1 - p] == root && rev[|res| - 1 - q] == n;
      }
    }
    if forall n :: n in g && Reach(g, root, n) ==> Reach(g, n, root) {
      forall i, j | 0 <= i < j < |rev| ensures Reach(g, rev[j], rev[i]) {
        assert rev[i] in res && rev[j] in res;
        ReachTrans(g, rev[j], root, rev[i]);
      }
    }
  }

  /** Two commands, the first depending on the second: the second is ordered first and applied last. */
  lemma ApplyOrderCounterexample(a: InstanceId, b: InstanceId)
    requires a != b
    ensures var g: Graph<InstanceId> := map[a := {b}, b := {}];
      SccOrder(g, a, [b, a], [1, 2]) && !DepsFirst(g, Reversed([b, a]))
  {
    var g: Graph<InstanceId> := map[a := {b}, b := {}];
    ReachRefl(g, a);
    ReachRefl(g, b);
    ReachEdge(g, a, b);
    assert !Reach(g, b, a) by {
      assert forall k: nat :: !Walk(g, b, a, k);
    }
    var rev := Reversed([b, a]);
    assert rev[0] == a && rev[1] == b;
    assert !Reach(g, rev[1], rev[0]);
    hide Reach;
    assert SccOrder(g, a, [b, a], [1, 2]);
  }
}
