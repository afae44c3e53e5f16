/** NFA states on the heap and the combinators that link them. */
module RegexNfa {
  import opened Collections
  import opened RegexLanguage
  import opened RegexPaths
  import opened RegexThompson

  class NFAState {
    var edges: seq<Edge<NFAState>>
    var id: nat
    var accept: bool

    constructor ()
      ensures Elems(edges) == {} && id == 0 && !accept
    {
      edges, id, accept := [], 0, false;
    }

    method AddE(next: NFAState)
      modifies this`edges
      ensures Elems(edges) == old(Elems(edges)) + {Eps(next)}
    {
      edges := edges + [Edge(true, '\0', next)];
    }

    method AddChar(c: Letter, next: NFAState)
      modifies this`edges
      ensures Elems(edges) == old(Elems(edges)) + {Edge(false, c, next)}
    {
      edges := edges + [Edge(false, c, next)];
    }
  }

  /** The states of g carry exactly the edges g says, and no marks. */
  ghost predicate Shows(g: Nfa<NFAState>)
    reads g.Keys
  {
    forall n :: n in g ==> Elems(n.edges) == g[n] && n.id == 0 && !n.accept
  }

  class NFA {
    const Start: NFAState
    const End: NFAState
    ghost const g: Nfa<NFAState>
    ghost const re: Re

    constructor (start: NFAState, end: NFAState, ghost g: Nfa<NFAState>, ghost re: Re)
      ensures Start == start && End == end && this.g == g && this.re == re
    {
      Start, End := start, end;
      this.g, this.re := g, re;
    }

    ghost predicate Valid()
      reads g.Keys
    {
      Shows(g) && Denotes(g, Start, End, re)
    }
  }

  lemma Ends<N>(g: Nfa<N>, s: N, t: N, re: Re)
    requires Denotes(g, s, t, re)
    ensures s in g && t in g && s != t && g[t] == {}
  {
  }

  method NfaChar(c: Letter) returns (r: NFA)
    ensures r.Valid() && r.re == Chr(c) && fresh(r.g.Keys)
  {
    hide Elems, Denotes;
    var start := new NFAState();
    var end := new NFAState();
    start.AddChar(c, end);
    CharDenotes(start, c, end);
    r := new NFA(start, end, CharGraph(start, c, end), Chr(c));
  }

  method NfaCat(a: NFA, b: NFA) returns (r: NFA)
    requires a.Valid() && b.Valid() && a.g.Keys !! b.g.Keys
    modifies a.End
    ensures r.Valid() && r.re == Cat(a.re, b.re) && r.g.Keys <= a.g.Keys + b.g.Keys
  {
    hide Elems, Denotes;
    Ends(a.g, a.Start, a.End, a.re);
    Ends(b.g, b.Start, b.End, b.re);
    CatDenotes(a.g, a.Start, a.End, a.re, b.g, b.Start, b.End, b.re);
    a.End.edges := b.Start.edges;
    a.End.id := b.Start.id;
    a.End.accept := b.Start.accept;
    r := new NFA(a.Start, b.End, CatGraph(a.g, a.End, b.g, b.Start), Cat(a.re, b.re));
  }

  method LinkOr(start: NFAState, end: NFAState, aStart: NFAState, aEnd: NFAState, bStart: NFAState, bEnd: NFAState)
    requires start != aEnd && start != bEnd && aEnd != bEnd
    requires Elems(start.edges) == {} && Elems(aEnd.edges) == {} && Elems(bEnd.edges) == {}
    modifies start`edges, aEnd`edges, bEnd`edges
    ensures Elems(start.edges) == {Eps(aStart), Eps(bStart)} && Elems(aEnd.edges) == {Eps(end)}
    ensures Elems(bEnd.edges) == {Eps(end)}
  {
    hide Elems;
    start.AddE(aStart);
    aEnd.AddE(end);
    start.AddE(bStart);
    bEnd.AddE(end);
  }

  method LinkStar(start: NFAState, end: NFAState, aStart: NFAState, aEnd: NFAState)
    requires start != aEnd && Elems(start.edges) == {} && Elems(aEnd.edges) == {}
    modifies start`edges, aEnd`edges
    ensures Elems(start.edges) == {Eps(aStart), Eps(end)} && Elems(aEnd.edges) == {Eps(end), Eps(aStart)}
  {
    hide Elems;
    start.AddE(aStart);
    start.AddE(end);
    aEnd.AddE(end);
    aEnd.AddE(aStart);
  }

  lemma OrEdges<N>(ga: Nfa<N>, sa: N, ta: N, gb: Nfa<N>, sb: N, tb: N, s: N, t: N)
    requires ta in ga && tb in gb && ga.Keys !! gb.Keys !! {s} !! {t}
    ensures var g := OrGraph(ga, sa, ta, gb, sb, tb, s, t);
      && g.Keys == ga.Keys + gb.Keys + {s, t}
      && g[s] == {Eps(sa), Eps(sb)} && g[t] == {} && g[ta] == {Eps(t)} && g[tb] == {Eps(t)}
      && (forall n :: n in ga && n != ta ==> g[n] == ga[n])
      && (forall n :: n in gb && n != tb ==> g[n] == gb[n])
  {
  }

  method NfaOr(a: NFA, b: NFA) returns (r: NFA)
    requires a.Valid() && b.Valid() && a.g.Keys !! b.g.Keys
    modifies a.End`edges, b.End`edges
    ensures r.Valid() && r.re == Alt(a.re, b.re) && fresh(r.g.Keys - (a.g.Keys + b.g.Keys))
  {
    hide Elems, Denotes, OrGraph;
    Ends(a.g, a.Start, a.End, a.re);
    Ends(b.g, b.Start, b.End, b.re);
    var start := new NFAState();
    var end := new NFAState();
    OrDenotes(a.g, a.Start, a.End, a.re, b.g, b.Start, b.End, b.re, start, end);
    OrEdges(a.g, a.Start, a.End, b.g, b.Start, b.End, start, end);
    LinkOr(start, end, a.Start, a.End, b.Start, b.End);
    ghost var g := OrGraph(a.g, a.Start, a.End, b.g, b.Start, b.End, start, end);
    assert Shows(g);
    hide Shows;
    r := new NFA(start, end, g, Alt(a.re, b.re));
  }

  lemma StarEdges<N>(ga: Nfa<N>, sa: N, ta: N, s: N, t: N)
    requires ta in ga && ga.Keys !! {s} !! {t}
    ensures var g := StarGraph(ga, sa, ta, s, t);
      && g.Keys == ga.Keys + {s, t}
      && g[s] == {Eps(sa), Eps(t)} && g[t] == {} && g[ta] == {Eps(t), Eps(sa)}
      && (forall n :: n in ga && n != ta ==> g[n] == ga[n])
  {
  }

  method NfaStar(a: NFA) returns (r: NFA)
    requires a.Valid()
    modifies a.End`edges
    ensures r.Valid() && r.re == Star(a.re) && fresh(r.g.Keys - a.g.Keys)
  {
    hide Elems, Denotes, StarGraph;
    Ends(a.g, a.Start, a.End, a.re);
    var start := new NFAState();
    var end := new NFAState();
    StarDenotes(a.g, a.Start, a.End, a.re, start, end);
    StarEdges(a.g, a.Start, a.End, start, end);
    LinkStar(start, end, a.Start, a.End);
    ghost var g := StarGraph(a.g, a.Start, a.End, start, end);
    assert Shows(g);
    hide Shows;
    r := new NFA(start, end, g, Star(a.re));
  }
}
