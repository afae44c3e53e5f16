/** Sets of NFA states: closures, moves, and the words that lead to them. */
module RegexSubsets {
  import opened Reachability
  import opened RegexLanguage
  import opened RegexPaths
  import opened RegexThompson

  ghost function EpsGraph<N>(g: Nfa<N>): (r: Graph<N>) {
    map n | n in g :: set e | e in g[n] && e.epsilon :: e.next
  }

  ghost function Closure<N>(g: Nfa<N>, s: set<N>): (r: set<N>) {
    set n | n in g && exists m :: m in s && Reach(EpsGraph(g), m, n)
  }

  ghost function Move<N>(g: Nfa<N>, s: set<N>, c: char): (r: set<N>) {
    set m, e | m in s && m in g && e in g[m] && !e.epsilon && e.ch == c :: e.next
  }

  /** The states reached from s by reading v. */
  ghost function ReachedBy<N>(g: Nfa<N>, s: N, v: string): (r: set<N>) {
    set n | n in g && Reads(g, s, v, n)
  }

  lemma {:induction false} WalkIsPath<N>(g: Nfa<N>, a: N, b: N, k: nat)
    ensures Walk(EpsGraph(g), a, b, k) <==> Path(g, a, [], b, k)
    decreases k
  {
    if k > 0 {
      if Walk(EpsGraph(g), a, b, k) {
        var x :| x in EpsGraph(g)[a] && Walk(EpsGraph(g), x, b, k - 1);
        var e :| e in g[a] && e.epsilon && e.next == x;
        WalkIsPath(g, x, b, k - 1);
        assert Take(g, e, [], b, k);
      }
      if Path(g, a, [], b, k) {
        var e := FirstEdge(g, a, [], b, k);
        WalkIsPath(g, e.next, b, k - 1);
        assert e.next in EpsGraph(g)[a];
      }
    }
  }

  lemma ReachIsReads<N>(g: Nfa<N>, a: N, b: N)
    ensures Reach(EpsGraph(g), a, b) <==> Reads(g, a, [], b)
  {
    if k: nat :| Walk(EpsGraph(g), a, b, k) {
      WalkIsPath(g, a, b, k);
    }
    if k: nat :| Path(g, a, [], b, k) {
      WalkIsPath(g, a, b, k);
    }
  }

  lemma ClosureOfStart<N>(g: Nfa<N>, s: N)
    ensures Closure(g, {s}) == ReachedBy(g, s, [])
  {
    hide Reach, Reads;
    forall n | n in g ensures n in Closure(g, {s}) <==> n in ReachedBy(g, s, []) {
      ReachIsReads(g, s, n);
    }
  }

  /** A path reading v + [c] reads v, takes an edge labelled c, and goes on without reading. */
  lemma {:induction false} LastLetter<N>(g: Nfa<N>, a: N, v: string, c: char, n: N, k: nat) returns (m: N, e: Edge<N>)
    requires Path(g, a, v + [c], n, k)
    ensures Reads(g, a, v, m) && m in g && e in g[m] && !e.epsilon && e.ch == c && Reads(g, e.next, [], n)
    decreases k
  {
    var f := FirstEdge(g, a, v + [c], n, k);
    if f.epsilon {
      m, e := LastLetter(g, f.next, v, c, n, k - 1);
      ReadsAfter(g, a, f, v, m);
    } else if v == [] {
      assert (v + [c])[1..] == [];
      ReadsNothing(g, a);
      m, e := a, f;
    } else {
      assert (v + [c])[1..] == v[1..] + [c];
      m, e := LastLetter(g, f.next, v[1..], c, n, k - 1);
      ReadsAfter(g, a, f, v[1..], m);
      assert [f.ch] + v[1..] == v;
    }
  }

  lemma MoveClosure<N>(g: Nfa<N>, s: N, t: N, v: string, c: char)
    requires Thompson(g, s, t)
    ensures Closure(g, Move(g, ReachedBy(g, s, v), c)) == ReachedBy(g, s, v + [c])
  {
    forall n | n in g
      ensures n in Closure(g, Move(g, ReachedBy(g, s, v), c)) <==> n in ReachedBy(g, s, v + [c])
    {
      if n in Closure(g, Move(g, ReachedBy(g, s, v), c)) {
        MoveReads(g, s, v, c, n);
      }
      if n in ReachedBy(g, s, v + [c]) {
        ReadsMove(g, s, t, v, c, n);
      }
    }
  }

  lemma MoveReads<N>(g: Nfa<N>, s: N, v: string, c: char, n: N)
    requires n in Closure(g, Move(g, ReachedBy(g, s, v), c))
    ensures n in ReachedBy(g, s, v + [c])
  {
    hide Reach, Reads;
    var x :| x in Move(g, ReachedBy(g, s, v), c) && Reach(EpsGraph(g), x, n);
    var m, e :| m in ReachedBy(g, s, v) && m in g && e in g[m] && !e.epsilon && e.ch == c && e.next == x;
    ReachIsReads(g, x, n);
    ReadsAfter(g, m, e, [], n);
    assert [e.ch] + [] == [c];
    ReadsCat(g, s, v, m, [c], n);
  }

  lemma ReadsMove<N>(g: Nfa<N>, s: N, t: N, v: string, c: char, n: N)
    requires Thompson(g, s, t) && s in g && n in ReachedBy(g, s, v + [c])
    ensures n in Closure(g, Move(g, ReachedBy(g, s, v), c))
  {
    var k: nat :| Path(g, s, v + [c], n, k);
    hide Reach, Reads, Path;
    var m, e := LastLetter(g, s, v, c, n, k);
    ReachIsReads(g, e.next, n);
    assert e.next in Move(g, ReachedBy(g, s, v), c);
  }

  /** Nothing but the empty word leads back to the start. */
  lemma {:induction false} NeverBack<N>(g: Nfa<N>, s: N, t: N, a: N, v: string, k: nat)
    requires Thompson(g, s, t) && Path(g, a, v, s, k) && k > 0
    ensures false
    decreases k
  {
    var e := FirstEdge(g, a, v, s, k);
    if k > 1 {
      NeverBack(g, s, t, e.next, if e.epsilon then v else v[1..], k - 1);
    }
  }

  lemma StartOnlyFirst<N>(g: Nfa<N>, s: N, t: N, v: string)
    requires Thompson(g, s, t)
    ensures s in ReachedBy(g, s, v) <==> v == []
  {
    if v == [] {
      ReadsNothing(g, s);
    } else if s in ReachedBy(g, s, v) {
      var k: nat :| Path(g, s, v, s, k);
      NeverBack(g, s, t, s, v, k);
    }
  }

  /** Some state is reached by v exactly when v begins a word of the language. */
  lemma ReachedIfViable<N>(g: Nfa<N>, s: N, t: N, re: Re, v: string)
    requires Denotes(g, s, t, re)
    ensures ReachedBy(g, s, v) != {} <==> Viable(re, v)
  {
    if n :| n in ReachedBy(g, s, v) {
      var x: string :| Reads(g, n, x, t);
      ReadsCat(g, s, v, n, x, t);
    }
    if x: string :| In(re, v + x) {
      var k: nat :| Path(g, s, v + x, t, k);
      var n := Midway(g, s, t, s, v, x, t, k);
      assert n in ReachedBy(g, s, v);
    }
  }

  lemma {:induction false} Midway<N>(g: Nfa<N>, s: N, t: N, a: N, v: string, x: string, b: N, k: nat) returns (n: N)
    requires Thompson(g, s, t) && a in g && Path(g, a, v + x, b, k)
    ensures n in g && Reads(g, a, v, n)
    decreases k
  {
    if v == [] {
      ReadsNothing(g, a);
      n := a;
    } else {
      var e := FirstEdge(g, a, v + x, b, k);
      if e.epsilon {
        n := Midway(g, s, t, e.next, v, x, b, k - 1);
        ReadsAfter(g, a, e, v, n);
      } else {
        assert (v + x)[1..] == v[1..] + x;
        n := Midway(g, s, t, e.next, v[1..], x, b, k - 1);
        ReadsAfter(g, a, e, v[1..], n);
        assert [e.ch] + v[1..] == v;
      }
    }
  }

  // ---- deterministic automata -------------------------------------------------------------------

  datatype DFA = DFA(tran: seq<seq<nat>>, accept: seq<bool>)

  ghost predicate TranOk<N>(g: Nfa<N>, sets: seq<set<N>>, i: nat, c: nat, to: nat) {
    && c < 128 && i < |sets| && to < |sets|
    && var m := Move(g, sets[i], c as char);
       if m == {} then to == 0 else sets[to] == Closure(g, m)
  }

  /** dfa is a subset construction of g, sets[i] being the states that state i stands for. */
  ghost predicate SubsetDfa<N>(g: Nfa<N>, s: N, t: N, sets: seq<set<N>>, dfa: DFA) {
    && |dfa.tran| == |dfa.accept| == |sets| > 0
    && sets[0] == Closure(g, {s})
    && (forall i :: 0 <= i < |sets| ==> |dfa.tran[i]| == 128)
    && (forall i, c :: 0 <= i < |sets| && 0 <= c < 128 ==> TranOk(g, sets, i, c, dfa.tran[i][c]))
    && !dfa.accept[0]
    && (forall i :: 0 < i < |sets| ==> (dfa.accept[i] <==> t in sets[i]))
  }

  ghost predicate Table(dfa: DFA) {
    && |dfa.tran| == |dfa.accept| > 0
    && forall i :: 0 <= i < |dfa.tran| ==> |dfa.tran[i]| == 128 && forall c :: 0 <= c < 128 ==>
      dfa.tran[i][c] < |dfa.tran|
  }

  /** The state after reading w, as the table gives it. */
  ghost function StateAfter(dfa: DFA, w: seq<Letter>): (st: nat)
    requires Table(dfa)
    ensures st < |dfa.tran|
  {
    if w == [] then 0 else dfa.tran[StateAfter(dfa, w[..|w| - 1])][w[|w| - 1] as int]
  }

  lemma SubsetTable<N>(g: Nfa<N>, s: N, t: N, sets: seq<set<N>>, dfa: DFA)
    requires SubsetDfa(g, s, t, sets, dfa)
    ensures Table(dfa)
  {
    hide Move, Closure;
    forall i, c | 0 <= i < |dfa.tran| && 0 <= c < 128 ensures dfa.tran[i][c] < |dfa.tran| {
      assert TranOk(g, sets, i, c, dfa.tran[i][c]);
    }
  }

  /** The state after w stands for the states the NFA is in after what the matcher is reading of w. */
  lemma {:induction false} StateReads<N>(g: Nfa<N>, s: N, t: N, re: Re, sets: seq<set<N>>, dfa: DFA, w: seq<Letter>)
    requires Denotes(g, s, t, re) && SubsetDfa(g, s, t, sets, dfa) && Table(dfa)
    ensures var st := StateAfter(dfa, w); var v := Reading(re, w);
      sets[st] == ReachedBy(g, s, v) && (v == [] <==> st == 0)
    decreases |w|
  {
    if w == [] {
      ClosureOfStart(g, s);
    } else {
      var w', c := w[..|w| - 1], w[|w| - 1];
      StateReads(g, s, t, re, sets, dfa, w');
      StepReads(g, s, t, re, sets, dfa, StateAfter(dfa, w'), Reading(re, w'), c);
    }
  }

  lemma StepReads<N>(g: Nfa<N>, s: N, t: N, re: Re, sets: seq<set<N>>, dfa: DFA, st: nat, v: string, c: Letter)
    requires Denotes(g, s, t, re) && SubsetDfa(g, s, t, sets, dfa) && st < |sets| && sets[st] == ReachedBy(g, s, v)
    ensures var to := dfa.tran[st][c as int];
      if Viable(re, v + [c]) then to != 0 && to < |sets| && sets[to] == ReachedBy(g, s, v + [c]) else to == 0
    ensures sets[0] == ReachedBy(g, s, [])
  {
    hide Reads, Reach, Viable, Trim;
    var to := dfa.tran[st][c as int];
    assert TranOk(g, sets, st, c as int, to);
    MoveClosure(g, s, t, v, c);
    ReachedIfViable(g, s, t, re, v + [c]);
    ClosureOfStart(g, s);
    StartOnlyFirst(g, s, t, v + [c]);
    StartOnlyFirst(g, s, t, []);
    NoMove(g, sets[st], c);
  }

  lemma NoMove<N>(g: Nfa<N>, s: set<N>, c: char)
    requires forall n, e :: n in g && e in g[n] ==> e.next in g
    ensures Closure(g, Move(g, s, c)) == {} <==> Move(g, s, c) == {}
  {
    if x :| x in Move(g, s, c) {
      ReachRefl(EpsGraph(g), x);
      assert x in Closure(g, Move(g, s, c));
    }
  }

  /** The verdict of the table is the verdict on the language. */
  lemma TableMatches<N>(g: Nfa<N>, s: N, t: N, re: Re, sets: seq<set<N>>, dfa: DFA, w: seq<Letter>)
    requires Denotes(g, s, t, re) && SubsetDfa(g, s, t, sets, dfa) && Table(dfa)
    ensures dfa.accept[StateAfter(dfa, w)] <==> Matches(re, w)
  {
    hide Closure, Move, TranOk, Trim, Reads, In;
    StateReads(g, s, t, re, sets, dfa, w);
    var st, v := StateAfter(dfa, w), Reading(re, w);
    assert t in ReachedBy(g, s, v) <==> Reads(g, s, v, t);
  }
}
