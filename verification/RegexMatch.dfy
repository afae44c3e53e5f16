/** Numbering the states, and the whole way from a pattern to a verdict. */
module RegexMatch {
  import opened Collections
  import opened Reachability
  import opened RegexLanguage
  import opened RegexPaths
  import opened RegexThompson
  import opened RegexSubsets
  import opened RegexNfa
  import opened RegexDfa
  import RegexParser
  import S = RegexSyntax

  ghost function IdsOf(states: set<NFAState>): (r: map<NFAState, nat>)
    reads states`id
  {
    map n | n in states :: n.id
  }

  ghost function NextGraph<N>(g: Nfa<N>): (r: Graph<N>) {
    map n | n in g :: set e | e in g[n] :: e.next
  }

  /** Numbering from ids to ids': old numbers stay, new ones are distinct and taken from lo up to hi. */
  ghost predicate Numbering<N>(ids: map<N, nat>, ids': map<N, nat>, lo: nat, hi: nat) {
    && ids'.Keys == ids.Keys && lo <= hi
    && (forall m :: m in ids && ids[m] != 0 ==> ids'[m] == ids[m])
    && (forall m :: m in ids && ids[m] == 0 && ids'[m] != 0 ==> lo <= ids'[m] < hi)
    && (forall a, b :: a in ids && b in ids && ids[a] == 0 && ids[b] == 0 && ids'[a] == ids'[b] != 0 ==> a == b)
  }

  /** The new numbers leave no gap. */
  ghost predicate Gapless<N>(ids: map<N, nat>, ids': map<N, nat>, lo: nat, hi: nat) {
    forall x: nat :: lo <= x < hi ==> Given(ids, ids', x)
  }

  /** Some state got the number x. */
  ghost predicate Given<N>(ids: map<N, nat>, ids': map<N, nat>, x: nat) {
    exists m :: m in ids && m in ids' && ids[m] == 0 && ids'[m] == x
  }

  lemma GaplessTrans<N>(a: map<N, nat>, b: map<N, nat>, c: map<N, nat>, lo: nat, mid: nat, hi: nat)
    requires Numbering(a, b, lo, mid) && Numbering(b, c, mid, hi) && lo > 0
    requires Gapless(a, b, lo, mid) && Gapless(b, c, mid, hi)
    ensures Gapless(a, c, lo, hi)
  {
    forall x: nat | lo <= x < hi ensures Given(a, c, x) {
      if x < mid {
        assert Given(a, b, x);
        var m :| m in a && m in b && a[m] == 0 && b[m] == x;
        assert c[m] == x;
      } else {
        assert Given(b, c, x);
        var m :| m in b && m in c && b[m] == 0 && c[m] == x;
        assert a[m] == 0;
      }
    }
  }

  /** Every newly numbered state, except those in open, has only numbered successors. */
  ghost predicate Followed<N>(next: Graph<N>, ids: map<N, nat>, ids': map<N, nat>, open: set<N>) {
    forall m, x :: m in ids && ids[m] == 0 && m in ids' && ids'[m] != 0 && m !in open && m in next && x in next[m] ==>
      x in ids' && ids'[x] != 0
  }

  lemma NumberingTrans<N>(next: Graph<N>, a: map<N, nat>, b: map<N, nat>, c: map<N, nat>, lo: nat, mid: nat, hi: nat,
      open: set<N>)
    requires Numbering(a, b, lo, mid) && Numbering(b, c, mid, hi)
    requires Followed(next, a, b, open) && Followed(next, b, c, {})
    requires forall m, x :: m in next && x in next[m] && m in a ==> x in a
    ensures Numbering(a, c, lo, hi) && Followed(next, a, c, open)
  {
  }

  method SetId(n: NFAState, id: nat, ghost g: Nfa<NFAState>)
    requires Edges(g) && n in g && n.id == 0 && id > 0
    modifies n`id
    ensures Numbering(old(IdsOf(g.Keys)), IdsOf(g.Keys), id, id + 1)
    ensures Gapless(old(IdsOf(g.Keys)), IdsOf(g.Keys), id, id + 1)
    ensures Followed(NextGraph(g), old(IdsOf(g.Keys)), IdsOf(g.Keys), {n})
    ensures Zeros(IdsOf(g.Keys)) < old(Zeros(IdsOf(g.Keys))) && HasId(IdsOf(g.Keys), n)
  {
    ghost var ids := IdsOf(g.Keys);
    n.id := id;
    assert IdsOf(g.Keys) == ids[n := id];
    hide Numbering, Gapless, Followed, IdsOf, Zeros, NextGraph;
    FirstNumber(NextGraph(g), ids, n, id);
  }

  method NfaAllocId(n: NFAState, id: nat, ghost g: Nfa<NFAState>) returns (id': nat)
    requires Edges(g) && n in g && id > 0
    modifies g.Keys`id
    ensures Numbering(old(IdsOf(g.Keys)), IdsOf(g.Keys), id, id') && HasId(IdsOf(g.Keys), n)
    ensures Gapless(old(IdsOf(g.Keys)), IdsOf(g.Keys), id, id')
    ensures Followed(NextGraph(g), old(IdsOf(g.Keys)), IdsOf(g.Keys), {})
    decreases Zeros(IdsOf(g.Keys))
  {
    hide Elems, Numbering, Gapless, Followed, IdsOf, NextGraph, Zeros, Edges, HasId;
    if n.id != 0 {
      NothingNew(g, n, id);
      return id;
    }
    ghost var ids, next := IdsOf(g.Keys), NextGraph(g);
    EdgesClosed(g);
    SetId(n, id, g);
    id' := id + 1;
    for j := 0 to |n.edges|
      invariant Numbering(ids, IdsOf(g.Keys), id, id') && Followed(next, ids, IdsOf(g.Keys), {n})
      invariant Gapless(ids, IdsOf(g.Keys), id, id')
      invariant Zeros(IdsOf(g.Keys)) < Zeros(ids) && id' > 0 && HasId(IdsOf(g.Keys), n)
      invariant forall i :: 0 <= i < j ==> HasId(IdsOf(g.Keys), n.edges[i].next)
    {
      EdgeInside(g, n, j);
      ghost var before, mid := IdsOf(g.Keys), id';
      id' := NfaAllocId(n.edges[j].next, id', g);
      GaplessTrans(ids, before, IdsOf(g.Keys), id, mid, id');
      NumberingTrans(next, ids, before, IdsOf(g.Keys), id, mid, id', {n});
      Kept(before, IdsOf(g.Keys), mid, id');
    }
    NodeFollowed(g, ids, n);
  }

  ghost function Zeros<N>(ids: map<N, nat>): (r: set<N>) {
    set m | m in ids && ids[m] == 0
  }

  lemma EdgesClosed(g: Nfa<NFAState>)
    requires Edges(g)
    ensures var next := NextGraph(g); next.Keys == g.Keys && forall m, x :: m in next && x in next[m] ==> x in g
    ensures IdsOf(g.Keys).Keys == g.Keys
  {
  }

  lemma EdgeInside(g: Nfa<NFAState>, n: NFAState, j: nat)
    requires Edges(g) && n in g && j < |n.edges|
    ensures n.edges[j].next in g
  {
    assert n.edges[j] in Elems(n.edges);
  }

  lemma NothingNew(g: Nfa<NFAState>, n: NFAState, id: nat)
    requires n in g && n.id != 0
    ensures var ids := IdsOf(g.Keys);
      HasId(ids, n) && Numbering(ids, ids, id, id) && Gapless(ids, ids, id, id) && Followed(NextGraph(g), ids, ids, {})
  {
  }

  ghost predicate HasId<N>(ids: map<N, nat>, n: N) {
    n in ids && ids[n] != 0
  }

  lemma Kept<N>(before: map<N, nat>, after: map<N, nat>, lo: nat, hi: nat)
    requires Numbering(before, after, lo, hi)
    ensures Zeros(after) <= Zeros(before) && lo <= hi
    ensures forall m :: HasId(before, m) ==> HasId(after, m)
  {
  }

  lemma NodeFollowed(g: Nfa<NFAState>, ids: map<NFAState, nat>, n: NFAState)
    requires Edges(g) && n in g && Followed(NextGraph(g), ids, IdsOf(g.Keys), {n})
    requires forall i :: 0 <= i < |n.edges| ==> HasId(IdsOf(g.Keys), n.edges[i].next)
    ensures Followed(NextGraph(g), ids, IdsOf(g.Keys), {})
  {
    forall x | x in NextGraph(g)[n] ensures HasId(IdsOf(g.Keys), x) {
      var e :| e in g[n] && e.next == x;
      assert e in Elems(n.edges);
    }
  }

  lemma FirstNumber<N>(next: Graph<N>, ids: map<N, nat>, n: N, id: nat)
    requires n in ids && ids[n] == 0 && id > 0
    ensures Numbering(ids, ids[n := id], id, id + 1) && Followed(next, ids, ids[n := id], {n})
    ensures Zeros(ids[n := id]) < Zeros(ids) && Gapless(ids, ids[n := id], id, id + 1)
  {
    assert n in Zeros(ids) && ids[n := id][n] == id;
  }

  /** Starting from no numbers, every state reachable from the start gets a number of its own. */
  lemma AllNumbered<N>(next: Graph<N>, ids: map<N, nat>, ids': map<N, nat>, start: N, lo: nat, hi: nat)
    requires next.Keys == ids.Keys && Closed(next) && (forall m :: m in ids ==> ids[m] == 0)
    requires Numbering(ids, ids', lo, hi) && Followed(next, ids, ids', {}) && HasId(ids', start)
    ensures forall n :: n in next && Reach(next, start, n) ==> HasId(ids', n) && lo <= ids'[n] < hi
    ensures forall a, b :: HasId(ids', a) && HasId(ids', b) && ids'[a] == ids'[b] ==> a == b
  {
    var rank: map<N, nat> := map n | n in ids' && ids'[n] != 0 :: 0;
    forall n | n in next && Reach(next, start, n) ensures HasId(ids', n) {
      var k: nat :| Walk(next, start, n, k);
      WalkRank(next, rank, start, n, k);
    }
  }

  ghost predicate DistinctIds(g: Nfa<NFAState>, start: NFAState)
    reads g.Keys`id
  {
    && (forall n :: n in g && Reach(NextGraph(g), start, n) ==> n.id > 0)
    && (forall a, b :: a in g && b in g && a.id == b.id > 0 ==> a == b)
  }

  method NumberStates(start: NFAState, ghost g: Nfa<NFAState>)
    requires Edges(g) && start in g && forall n :: n in g ==> n.id == 0
    modifies g.Keys`id
    ensures DistinctIds(g, start)
  {
    hide Elems, Reach, Numbering, Followed;
    ghost var ids := IdsOf(g.Keys);
    EdgesClosed(g);
    hide Edges;
    var last := NfaAllocId(start, 1, g);
    AllNumbered(NextGraph(g), ids, IdsOf(g.Keys), start, 1, last);
    IdsDistinct(g, start);
  }

  lemma IdsDistinct(g: Nfa<NFAState>, start: NFAState)
    requires var ids := IdsOf(g.Keys);
      && (forall n :: n in NextGraph(g) && Reach(NextGraph(g), start, n) ==> HasId(ids, n))
      && (forall a, b :: HasId(ids, a) && HasId(ids, b) && ids[a] == ids[b] ==> a == b)
    ensures DistinctIds(g, start)
  {
    hide Reach;
    forall a, b | a in g && b in g && a.id == b.id > 0 ensures a == b {
      assert HasId(IdsOf(g.Keys), a) && HasId(IdsOf(g.Keys), b);
    }
  }

  lemma ValidEdges(nfa: NFA)
    requires nfa.Valid()
    ensures Edges(nfa.g) && nfa.Start in nfa.g && nfa.End in nfa.g
    ensures forall n :: n in nfa.g ==> n.id == 0 && !n.accept
  {
    hide Trim, Reads, Elems;
  }

  /** Numbers the states and marks the end. */
  method Prepare(nfa: NFA)
    requires nfa.Valid()
    modifies nfa.g.Keys`id, nfa.End`accept
    ensures Edges(nfa.g) && Marked(IdsOf(nfa.g.Keys), {nfa.End}, nfa.g.Keys) && DistinctIds(nfa.g, nfa.Start)
  {
    hide Denotes, Edges, DistinctIds;
    ValidEdges(nfa);
    hide Shows;
    NumberStates(nfa.Start, nfa.g);
    nfa.End.accept := true;
  }

  /** Some(b) is the matcher's answer; None a panic on a pattern that lacks an operand. */
  method Match(exp: seq<Letter>, s: seq<Letter>) returns (r: Option<bool>)
    ensures r.Some? == S.Parse(exp).Some?
    ensures r.Some? ==> r.value == Matches(S.Parse(exp).value, s)
  {
    hide Denotes, Shows, S.Parse, Matches, SubsetDfa, Table, Marked, Edges, DistinctIds;
    var p := RegexParser.REtoNFA(exp);
    if p.None? { return None; }
    var nfa := p.value;
    Ends(nfa.g, nfa.Start, nfa.End, nfa.re);
    Prepare(nfa);
    var dfa, sets := NfaToDfa(nfa.Start, nfa.g, IdsOf(nfa.g.Keys), nfa.End);
    SubsetTable(nfa.g, nfa.Start, nfa.End, sets, dfa);
    TableMatches(nfa.g, nfa.Start, nfa.End, nfa.re, sets, dfa, s);
    var b := RegexDfa.Match(dfa, s);
    r := Some(b);
  }
}
