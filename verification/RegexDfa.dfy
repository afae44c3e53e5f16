/** The subset construction on heap states, and the matcher. */
module RegexDfa {
  import opened Collections
  import opened Reachability
  import opened RegexLanguage
  import opened RegexPaths
  import opened RegexSubsets
  import opened RegexNfa

  /** The states of g carry exactly the edges g says. */
  ghost predicate Edges(g: Nfa<NFAState>)
    reads g.Keys`edges
  {
    && (forall n :: n in g ==> Elems(n.edges) == g[n])
    && (forall n, e :: n in g && e in g[n] ==> e.next in g)
  }

  ghost predicate Distinct<T>(s: seq<T>) {
    forall i, j :: 0 <= i < j < |s| ==> s[i] != s[j]
  }

  /** Lists a set in some order. */
  method ListSet(s: set<NFAState>) returns (r: seq<NFAState>)
    ensures Elems(r) == s && Distinct(r)
  {
    var todo := s;
    r := [];
    while todo != {}
      invariant todo <= s && Elems(r) == s - todo && Distinct(r)
      decreases todo
    {
      var k :| k in todo;
      assert k !in Elems(r);
      assert Elems(r + [k]) == Elems(r) + {k};
      r := r + [k];
      todo := todo - {k};
    }
  }

  method NfaMove(states: seq<NFAState>, c: char, ghost g: Nfa<NFAState>) returns (next: seq<NFAState>)
    requires Edges(g) && Elems(states) <= g.Keys
    ensures Elems(next) == Move(g, Elems(states), c) && Distinct(next)
  {
    var found: set<NFAState> := {};
    for i := 0 to |states|
      invariant found == Move(g, Elems(states[..i]), c)
    {
      var st := states[i];
      assert states[..i + 1] == states[..i] + [st] && st in Elems(states);
      ghost var before := found;
      for j := 0 to |st.edges|
        invariant found == before + MoveAlong(Elems(st.edges[..j]), c)
      {
        var e := st.edges[j];
        assert st.edges[..j + 1] == st.edges[..j] + [e];
        MoveOne(st.edges[..j], e, c);
        if !e.epsilon && e.ch == c {
          found := found + {e.next};
        }
      }
      assert st.edges[..|st.edges|] == st.edges;
      MoveState(g, states[..i], st, c);
    }
    assert states[..|states|] == states;
    next := ListSet(found);
  }

  ghost function MoveAlong<N>(es: set<Edge<N>>, c: char): (r: set<N>) {
    set e | e in es && !e.epsilon && e.ch == c :: e.next
  }

  lemma MoveOne<N>(es: seq<Edge<N>>, e: Edge<N>, c: char)
    ensures MoveAlong(Elems(es + [e]), c) ==
      MoveAlong(Elems(es), c) + (if !e.epsilon && e.ch == c then {e.next} else {})
  {
    assert Elems(es + [e]) == Elems(es) + {e};
  }

  lemma MoveState<N>(g: Nfa<N>, states: seq<N>, st: N, c: char)
    requires st in g
    ensures Move(g, Elems(states + [st]), c) == Move(g, Elems(states), c) + MoveAlong(g[st], c)
  {
    assert Elems(states + [st]) == Elems(states) + {st};
  }

  // ---- closure ----------------------------------------------------------------------------------

  /**
   * What the worklist keeps: everything found is in the closure, and only listed states have successors left to find.
   */
  ghost predicate Closing<N>(g: Nfa<N>, from: set<N>, found: set<N>, todo: set<N>) {
    && from <= found && todo <= found && found <= Closure(g, from)
    && forall n, e :: n in found && n !in todo && n in g && e in g[n] && e.epsilon ==> e.next in found
  }

  lemma {:induction false} ClosedUnderEps<N>(g: Nfa<N>, found: set<N>, a: N, b: N, k: nat)
    requires a in found && Walk(EpsGraph(g), a, b, k)
    requires forall n, e :: n in found && n in g && e in g[n] && e.epsilon ==> e.next in found
    ensures b in found
    decreases k
  {
    if k > 0 {
      var x :| x in EpsGraph(g)[a] && Walk(EpsGraph(g), x, b, k - 1);
      ClosedUnderEps(g, found, x, b, k - 1);
    }
  }

  lemma ClosingDone<N>(g: Nfa<N>, from: set<N>, found: set<N>)
    requires Closing(g, from, found, {})
    ensures found == Closure(g, from)
  {
    forall n | n in Closure(g, from) ensures n in found {
      var m :| m in from && Reach(EpsGraph(g), m, n);
      var k: nat :| Walk(EpsGraph(g), m, n, k);
      ClosedUnderEps(g, found, m, n, k);
    }
  }

  lemma ClosureStep<N>(g: Nfa<N>, from: set<N>, n: N, e: Edge<N>)
    requires n in Closure(g, from) && e in g[n] && e.epsilon && e.next in g
    ensures e.next in Closure(g, from)
  {
    hide Reach;
    var m :| m in from && Reach(EpsGraph(g), m, n);
    assert e.next in EpsGraph(g)[n];
    ReachEdge(EpsGraph(g), n, e.next);
    ReachTrans(EpsGraph(g), m, n, e.next);
  }

  lemma ClosureStarts<N>(g: Nfa<N>, from: set<N>)
    requires from <= g.Keys
    ensures Closing(g, from, from, from)
  {
    hide Reach;
    forall n | n in from ensures n in Closure(g, from) {
      ReachRefl(EpsGraph(g), n);
    }
  }

  method EClosure(t: seq<NFAState>, ghost g: Nfa<NFAState>) returns (ec: seq<NFAState>)
    requires Edges(g) && Elems(t) <= g.Keys
    ensures Elems(ec) == Closure(g, Elems(t)) && Distinct(ec)
  {
    hide Closure;
    var stack := t;
    var found := set n | n in t;
    assert found == Elems(t);
    ClosureStarts(g, Elems(t));
    while |stack| > 0
      invariant Closing(g, Elems(t), found, Elems(stack)) && found <= g.Keys
      decreases g.Keys - found, |stack|
    {
      var n := stack[|stack| - 1];
      var rest := stack[..|stack| - 1];
      assert stack == rest + [n];
      assert Elems(stack) == Elems(rest) + {n};
      stack, found := Follow(n, rest, found, g, Elems(t));
    }
    assert Elems(stack) == {};
    ClosingDone(g, Elems(t), found);
    ec := ListSet(found);
  }

  /** Follows the epsilon edges of one state. */
  method Follow(n: NFAState, stack0: seq<NFAState>, found0: set<NFAState>, ghost g: Nfa<NFAState>,
      ghost from: set<NFAState>)
    returns (stack: seq<NFAState>, found: set<NFAState>)
    requires Edges(g) && n in found0 && found0 <= g.Keys && Closing(g, from, found0, Elems(stack0) + {n})
    ensures Closing(g, from, found, Elems(stack)) && found0 <= found <= g.Keys
    ensures found == found0 ==> stack == stack0
  {
    hide Closure;
    stack, found := stack0, found0;
    for j := 0 to |n.edges|
      invariant found0 <= found <= g.Keys && Closing(g, from, found, Elems(stack) + {n})
      invariant forall i :: 0 <= i < j && n.edges[i].epsilon ==> n.edges[i].next in found
      invariant found == found0 ==> stack == stack0
    {
      var e := n.edges[j];
      assert e in Elems(n.edges);
      if e.epsilon && e.next !in found {
        ClosureStep(g, from, n, e);
        assert Elems(stack + [e.next]) == Elems(stack) + {e.next};
        found := found + {e.next};
        stack := stack + [e.next];
      }
    }
    forall e | e in g[n] && e.epsilon ensures e.next in found {
      assert e in Elems(n.edges);
    }
  }

  // ---- DFA states -------------------------------------------------------------------------------

  datatype DState = DState(states: seq<NFAState>, hash: nat, i: nat, accept: bool)

  ghost function Sum<N>(ids: map<N, nat>, s: seq<N>): (r: nat) {
    if s == [] then 0 else Sum(ids, s[..|s| - 1]) + (if s[|s| - 1] in ids then ids[s[|s| - 1]] else 0)
  }

  lemma {:induction false} SumWithout<N>(ids: map<N, nat>, s: seq<N>, k: nat)
    requires k < |s|
    ensures Sum(ids, s) == Sum(ids, s[..k] + s[k + 1..]) + (if s[k] in ids then ids[s[k]] else 0)
    decreases |s|
  {
    var n := |s| - 1;
    if k == n {
      assert s[..k] + s[k + 1..] == s[..n];
    } else {
      SumWithout(ids, s[..n], k);
      var t := s[..k] + s[k + 1..];
      assert t[..|t| - 1] == s[..n][..k] + s[..n][k + 1..];
    }
  }

  /** The sum does not depend on the order. */
  lemma {:induction false} SumPermutes<N>(ids: map<N, nat>, s: seq<N>, t: seq<N>)
    requires multiset(s) == multiset(t)
    ensures Sum(ids, s) == Sum(ids, t)
    decreases |s|
  {
    if s == [] {
      assert |multiset(t)| == 0;
    } else {
      hide Sum;
      var n := |s| - 1;
      assert s[n] in multiset(t);
      var k :| 0 <= k < |t| && t[k] == s[n];
      SumWithout(ids, s, n);
      SumWithout(ids, t, k);
      Without(s, n);
      Without(t, k);
      SumPermutes(ids, s[..n] + s[n + 1..], t[..k] + t[k + 1..]);
    }
  }

  lemma Without<N>(s: seq<N>, k: nat)
    requires k < |s|
    ensures multiset(s[..k] + s[k + 1..]) == multiset(s) - multiset{s[k]}
  {
    assert s == s[..k] + [s[k]] + s[k + 1..];
  }

  /** Moves the last state forward past states with larger ids than that of position j, never past j itself. */
  method MoveLast(a: array<NFAState>, j: nat)
    requires j < a.Length
    modifies a
    ensures multiset(a[..]) == multiset(old(a[..]))
    ensures j + 1 < a.Length ==> a[..j + 1] == old(a[..j + 1])
  {
    var st, i := a[j], a.Length - 2;
    while i >= 0
      invariant -1 <= i <= a.Length - 2 && multiset(a[..]) == multiset(old(a[..]))
      invariant j + 1 < a.Length ==> j <= i && a[j] == st && a[..j + 1] == old(a[..j + 1])
    {
      if a[i].id <= st.id { break; }
      a[i], a[i + 1] := a[i + 1], a[i];
      i := i - 1;
    }
  }

  /** ids and accepting give the marks of the listed states. */
  ghost predicate Marked(ids: map<NFAState, nat>, accepting: set<NFAState>, s: set<NFAState>)
    reads s`id, s`accept
  {
    forall n :: n in s ==> n in ids && n.id == ids[n] && (n.accept <==> n in accepting)
  }

  /** The summary of a set of states: a reordering, the exact sum of ids, whether a member accepts. */
  method NfaDState(ec: seq<NFAState>, ghost ids: map<NFAState, nat>, ghost accepting: set<NFAState>) returns (d: DState)
    requires Marked(ids, accepting, Elems(ec))
    ensures multiset(d.states) == multiset(ec) && d.hash == Sum(ids, d.states) && d.i == 0
    ensures d.accept <==> Elems(d.states) * accepting != {}
  {
    var a := new NFAState[|ec|](i requires 0 <= i < |ec| => ec[i]);
    assert a[..] == ec;
    var hash, accept := 0, false;
    for j := 0 to a.Length
      invariant multiset(a[..]) == multiset(ec)
      invariant hash == Sum(ids, a[..j]) && (accept <==> Elems(a[..j]) * accepting != {})
    {
      ghost var s := a[..];
      SameElems(s, ec);
      var st := a[j];
      assert st == s[j] && st in Elems(s);
      if !accept {
        accept := st.accept;
      }
      hash := hash + st.id;
      SumNext(ids, accepting, s, j);
      MoveLast(a, j);
      if j + 1 == a.Length {
        assert s[..j + 1] == s && a[..j + 1] == a[..];
        SumPermutes(ids, s, a[..]);
        SameElems(s, a[..]);
      }
    }
    assert a[..a.Length] == a[..];
    d := DState(a[..], hash, 0, accept);
  }

  lemma SumNext<N>(ids: map<N, nat>, accepting: set<N>, s: seq<N>, j: nat)
    requires j < |s| && s[j] in ids
    ensures Sum(ids, s[..j + 1]) == Sum(ids, s[..j]) + ids[s[j]]
    ensures Elems(s[..j + 1]) * accepting != {} <==> Elems(s[..j]) * accepting != {} || s[j] in accepting
  {
    assert s[..j + 1][..j] == s[..j];
    assert s[..j + 1] == s[..j] + [s[j]];
    assert Elems(s[..j + 1]) == Elems(s[..j]) + {s[j]};
    assert s[j] in accepting ==> s[j] in Elems(s[..j + 1]) * accepting;
    if x :| x in Elems(s[..j]) * accepting {
      assert x in Elems(s[..j + 1]) * accepting;
    }
  }

  lemma SameElems<N>(s: seq<N>, t: seq<N>)
    requires multiset(s) == multiset(t)
    ensures Elems(s) == Elems(t)
  {
    assert forall x :: x in s <==> x in multiset(s);
    assert forall x :: x in t <==> x in multiset(t);
  }

  method InStates(states: seq<DState>, u: DState) returns (i: int)
    ensures -1 <= i < |states|
    ensures i >= 0 ==> states[i].states == u.states && states[i].hash == u.hash
    ensures i < 0 ==> forall k :: 0 <= k < |states| ==> states[k].states != u.states || states[k].hash != u.hash
  {
    i := 0;
    while i < |states|
      invariant 0 <= i <= |states|
      invariant forall k :: 0 <= k < i ==> states[k].states != u.states || states[k].hash != u.hash
    {
      var st := states[i];
      if u.hash == st.hash && |u.states| == |st.states| {
        var diff := false;
        var j := 0;
        while j < |u.states|
          invariant 0 <= j <= |u.states|
          invariant diff ==> u.states != st.states
          invariant !diff ==> u.states[..j] == st.states[..j]
        {
          if u.states[j] != st.states[j] {
            diff := true;
            break;
          }
          j := j + 1;
        }
        if !diff {
          assert u.states[..|u.states|] == u.states && st.states[..|u.states|] == st.states;
          return;
        }
      }
      i := i + 1;
    }
    i := -1;
  }

  // ---- the construction -------------------------------------------------------------------------

  /** All repetition-free lists over s. */
  ghost function Lists<N>(s: set<N>): (r: set<seq<N>>)
    decreases |s|
  {
    {[]} + set x, p | x in s && p in Lists(s - {x}) :: [x] + p
  }

  lemma {:induction false} InLists<N>(s: set<N>, p: seq<N>)
    requires Distinct(p) && Elems(p) <= s
    ensures p in Lists(s)
    decreases |s|
  {
    if p != [] {
      assert p[0] in Elems(p);
      forall x | x in Elems(p[1..]) ensures x in s - {p[0]} {
        assert x in p[1..] && x in Elems(p);
      }
      InLists(s - {p[0]}, p[1..]);
      assert p == [p[0]] + p[1..];
    }
  }

  /** The characters that label an edge out of the states. */
  method CharSet(states: seq<NFAState>, ghost g: Nfa<NFAState>) returns (r: seq<bool>)
    requires Edges(g) && Elems(states) <= g.Keys
    ensures |r| == 128 && forall c :: 0 <= c < 128 ==> (r[c] <==> Move(g, Elems(states), c as char) != {})
  {
    var a := new bool[128](i => false);
    for i := 0 to |states|
      invariant forall c :: 0 <= c < 128 ==> (a[c] <==> Labels(g, states[..i], c))
    {
      var st := states[i];
      assert states[..i + 1] == states[..i] + [st] && st in Elems(states);
      for j := 0 to |st.edges|
        invariant forall c :: 0 <= c < 128 ==> (a[c] <==> Labels(g, states[..i], c) || LabelsIn(st.edges[..j], c))
      {
        var e := st.edges[j];
        assert st.edges[..j + 1] == st.edges[..j] + [e];
        if !e.epsilon {
          a[e.ch as int] := true;
        }
      }
      assert st.edges[..|st.edges|] == st.edges;
      LabelsNext(g, states[..i], st, st.edges);
    }
    assert states[..|states|] == states;
    r := a[..];
    LabelsMove(g, states);
  }

  ghost predicate LabelsIn<N>(es: seq<Edge<N>>, c: int) {
    exists e :: e in es && !e.epsilon && e.ch as int == c
  }

  ghost predicate Labels<N>(g: Nfa<N>, states: seq<N>, c: int) {
    exists n, e :: n in states && n in g && e in g[n] && !e.epsilon && e.ch as int == c
  }

  lemma LabelsNext<N>(g: Nfa<N>, states: seq<N>, st: N, es: seq<Edge<N>>)
    requires st in g && Elems(es) == g[st]
    ensures forall c :: Labels(g, states + [st], c) <==> Labels(g, states, c) || LabelsIn(es, c)
  {
    forall c ensures Labels(g, states + [st], c) <==> Labels(g, states, c) || LabelsIn(es, c) {
      assert st in states + [st];
    }
  }

  lemma LabelsMove<N>(g: Nfa<N>, states: seq<N>)
    ensures forall c :: 0 <= c < 128 ==> (Labels(g, states, c) <==> Move(g, Elems(states), c as char) != {})
  {
    forall c | 0 <= c < 128 ensures Labels(g, states, c) <==> Move(g, Elems(states), c as char) != {} {
      var moved := Move(g, Elems(states), c as char);
      if n, e :| n in states && n in g && e in g[n] && !e.epsilon && e.ch as int == c {
        assert n in Elems(states) && e.next in moved;
      }
      if x :| x in moved {
        var n, e :| n in Elems(states) && n in g && e in g[n] && !e.epsilon && e.ch == c as char && e.next == x;
        assert n in states && e.ch as int == c;
      }
    }
  }

  /** The tables under construction and the DFA states still to be expanded. */
  datatype Work = Work(dstates: seq<DState>, dtran: seq<seq<nat>>, daccept: seq<bool>, stack: seq<nat>)

  ghost function Sets(dstates: seq<DState>): (r: seq<set<NFAState>>)
    ensures |r| == |dstates| && forall i :: 0 <= i < |r| ==> r[i] == Elems(dstates[i].states)
  {
    seq(|dstates|, i requires 0 <= i < |dstates| => Elems(dstates[i].states))
  }

  ghost predicate DStateOk(g: Nfa<NFAState>, ids: map<NFAState, nat>, d: DState) {
    Distinct(d.states) && Elems(d.states) <= g.Keys && d.hash == Sum(ids, d.states)
  }

  /** The first a columns of a row are filled in and the others still hold 0. */
  ghost predicate RowTo<N>(g: Nfa<N>, sets: seq<set<N>>, k: nat, row: seq<nat>, a: nat) {
    && |row| == 128
    && (forall c :: 0 <= c < a && c < 128 ==> TranOk(g, sets, k, c, row[c]))
    && (forall c :: a <= c < 128 ==> row[c] == 0)
  }

  ghost function Filled(w: Work, cur: int, a: nat, k: int): (r: nat) {
    if k in w.stack then 0 else if k == cur then a else 128
  }

  /** State cur is being expanded and has reached column a. */
  ghost predicate WorkInv(g: Nfa<NFAState>, ids: map<NFAState, nat>, s: NFAState, t: NFAState, w: Work, cur: int,
      a: nat) {
    && |w.dstates| == |w.dtran| == |w.daccept| > 0
    && (forall k :: 0 <= k < |w.dstates| ==> DStateOk(g, ids, w.dstates[k]) && w.dstates[k].i == k)
    && Elems(w.dstates[0].states) == Closure(g, {s}) && !w.daccept[0]
    && (forall k :: 0 < k < |w.dstates| ==> (w.daccept[k] <==> t in Elems(w.dstates[k].states)))
    && (forall k :: 0 <= k < |w.stack| ==> w.stack[k] < |w.dstates| && w.stack[k] != cur)
    && Distinct(w.stack)
    && (forall k :: 0 <= k < |w.dtran| ==> RowTo(g, Sets(w.dstates), k, w.dtran[k], Filled(w, cur, a, k)))
  }

  lemma RowGrows<N>(g: Nfa<N>, sets: seq<set<N>>, more: set<N>, k: nat, row: seq<nat>, a: nat)
    requires RowTo(g, sets, k, row, a)
    ensures RowTo(g, sets + [more], k, row, a)
  {
    hide Move, Closure;
    forall c | 0 <= c < a && c < 128 ensures TranOk(g, sets + [more], k, c, row[c]) {
      assert TranOk(g, sets, k, c, row[c]);
    }
  }

  /** A new DFA state with an empty row goes on the stack. */
  function Append(w: Work, u: DState): (r: Work) {
    Work(w.dstates + [u.(i := |w.dstates|)], w.dtran + [seq(128, i => 0)], w.daccept + [u.accept],
      w.stack + [|w.dstates|])
  }

  lemma AppendKeeps(g: Nfa<NFAState>, ids: map<NFAState, nat>, s: NFAState, t: NFAState, w: Work, cur: int, a: nat,
      u: DState)
    requires WorkInv(g, ids, s, t, w, cur, a) && cur < |w.dstates| && DStateOk(g, ids, u)
    requires u.accept <==> t in Elems(u.states)
    ensures WorkInv(g, ids, s, t, Append(w, u), cur, a)
  {
    hide Move, Closure, TranOk, Sum;
    var r := Append(w, u);
    assert Sets(r.dstates) == Sets(w.dstates) + [Elems(u.states)];
    forall k | 0 <= k < |r.dtran| ensures RowTo(g, Sets(r.dstates), k, r.dtran[k], Filled(r, cur, a, k)) {
      if k < |w.dtran| {
        RowGrows(g, Sets(w.dstates), Elems(u.states), k, w.dtran[k], Filled(w, cur, a, k));
      }
    }
  }

  function SetTran(w: Work, i: nat, a: nat, to: nat): (r: Work)
    requires i < |w.dtran| && a < |w.dtran[i]|
  {
    var row: seq<nat> := w.dtran[i][a := to];
    w.(dtran := w.dtran[i := row])
  }

  lemma SetKeeps(g: Nfa<NFAState>, ids: map<NFAState, nat>, s: NFAState, t: NFAState, w: Work, cur: nat, a: nat,
      to: nat)
    requires WorkInv(g, ids, s, t, w, cur, a) && cur < |w.dstates| && a < 128 && TranOk(g, Sets(w.dstates), cur, a, to)
    ensures |w.dtran[cur]| == 128 && WorkInv(g, ids, s, t, SetTran(w, cur, a, to), cur, a + 1)
  {
    hide Move, Closure, TranOk, Sum;
    assert RowTo(g, Sets(w.dstates), cur, w.dtran[cur], Filled(w, cur, a, cur));
    var r := SetTran(w, cur, a, to);
    forall k | 0 <= k < |r.dtran| ensures RowTo(g, Sets(r.dstates), k, r.dtran[k], Filled(r, cur, a + 1, k)) {
      assert RowTo(g, Sets(w.dstates), k, w.dtran[k], Filled(w, cur, a, k));
    }
  }

  ghost function Unseen(g: Nfa<NFAState>, w: Work): (r: set<seq<NFAState>>) {
    Lists(g.Keys) - set k | 0 <= k < |w.dstates| :: w.dstates[k].states
  }

  lemma AppendUnseen(g: Nfa<NFAState>, ids: map<NFAState, nat>, w: Work, u: DState)
    requires DStateOk(g, ids, u) && forall k :: 0 <= k < |w.dstates| ==> w.dstates[k].states != u.states
    ensures Unseen(g, Append(w, u)) < Unseen(g, w)
  {
    hide Lists;
    InLists(g.Keys, u.states);
    assert u.states in Unseen(g, w);
    var r := Append(w, u);
    assert r.dstates[|w.dstates|].states == u.states;
    assert forall k :: 0 <= k < |w.dstates| ==> r.dstates[k] == w.dstates[k];
  }

  /** The DFA state for the closure of a move. */
  method Target(states: seq<NFAState>, a: nat, ghost g: Nfa<NFAState>, ghost ids: map<NFAState, nat>, ghost t: NFAState)
    returns (u: DState)
    requires Edges(g) && Elems(states) <= g.Keys && a < 128 && Marked(ids, {t}, g.Keys)
    ensures DStateOk(g, ids, u) && (u.accept <==> t in Elems(u.states))
    ensures Elems(u.states) == Closure(g, Move(g, Elems(states), a as char))
  {
    var moved := NfaMove(states, a as char, g);
    assert Elems(moved) <= g.Keys;
    var ec := EClosure(moved, g);
    assert Elems(ec) <= g.Keys;
    u := NfaDState(ec, ids, {t});
    SameElems(u.states, ec);
    Permuted(ec, u.states);
    assert Elems(u.states) * {t} == if t in Elems(u.states) then {t} else {};
  }

  /** One column of one row. */
  method FillColumn(w: Work, cur: nat, a: nat, charset: seq<bool>, ghost g: Nfa<NFAState>,
      ghost ids: map<NFAState, nat>, ghost s: NFAState, ghost t: NFAState)
    returns (r: Work)
    requires Edges(g) && Marked(ids, {t}, g.Keys) && WorkInv(g, ids, s, t, w, cur, a) && cur < |w.dstates| && a < 128
    requires |charset| == 128 && (charset[a] <==> Move(g, Elems(w.dstates[cur].states), a as char) != {})
    ensures WorkInv(g, ids, s, t, r, cur, a + 1) && |w.dstates| <= |r.dstates| && r.dstates[cur] == w.dstates[cur]
    ensures Unseen(g, r) <= Unseen(g, w) && (Unseen(g, r) == Unseen(g, w) ==> |r.stack| <= |w.stack|)
  {
    hide WorkInv, RowTo, Move, Closure, Sum, Distinct, Edges, Marked, Unseen;
    WorkFacts(g, ids, s, t, w, cur, a);
    r := w;
    if !charset[a] {
      SetKeeps(g, ids, s, t, w, cur, a, 0);
      SetSame(w, cur, a);
      return;
    }
    var u := Target(w.dstates[cur].states, a, g, ids, t);
    var i := InStates(w.dstates, u);
    if i == -1 {
      AppendUnseen(g, ids, w, u);
      AppendKeeps(g, ids, s, t, w, cur, a, u);
      r := Append(w, u);
      i := |w.dstates|;
      SetKeeps(g, ids, s, t, r, cur, a, i);
    } else {
      SetKeeps(g, ids, s, t, w, cur, a, i);
    }
    SetUnseen(g, r, cur, a, i);
    r := SetTran(r, cur, a, i);
  }

  lemma WorkFacts(g: Nfa<NFAState>, ids: map<NFAState, nat>, s: NFAState, t: NFAState, w: Work, cur: nat, a: nat)
    requires WorkInv(g, ids, s, t, w, cur, a) && cur < |w.dstates| && a < 128
    ensures |w.dtran| == |w.dstates| && |w.dtran[cur]| == 128 && w.dtran[cur][a] == 0
    ensures forall k :: 0 <= k < |w.dstates| ==> DStateOk(g, ids, w.dstates[k])
  {
    assert RowTo(g, Sets(w.dstates), cur, w.dtran[cur], Filled(w, cur, a, cur));
  }

  lemma SetSame(w: Work, cur: nat, a: nat)
    requires cur < |w.dtran| && a < |w.dtran[cur]| && w.dtran[cur][a] == 0
    ensures SetTran(w, cur, a, 0) == w
  {
    assert w.dtran[cur][a := 0] == w.dtran[cur];
    assert w.dtran[cur := w.dtran[cur]] == w.dtran;
  }

  lemma SetUnseen(g: Nfa<NFAState>, w: Work, cur: nat, a: nat, to: nat)
    requires cur < |w.dtran| && a < |w.dtran[cur]|
    ensures Unseen(g, SetTran(w, cur, a, to)) == Unseen(g, w)
  {
  }

  /** Expands one DFA state. */
  method Expand(w: Work, cur: nat, ghost g: Nfa<NFAState>, ghost ids: map<NFAState, nat>, ghost s: NFAState,
      ghost t: NFAState)
    returns (r: Work)
    requires Edges(g) && Marked(ids, {t}, g.Keys) && WorkInv(g, ids, s, t, w, cur, 0) && cur < |w.dstates|
    ensures WorkInv(g, ids, s, t, r, cur, 128)
    ensures Unseen(g, r) <= Unseen(g, w) && (Unseen(g, r) == Unseen(g, w) ==> |r.stack| <= |w.stack|)
  {
    hide WorkInv, Move, Closure, Sum, Edges, Marked, Unseen;
    WorkFacts(g, ids, s, t, w, cur, 0);
    var charset := CharSet(w.dstates[cur].states, g);
    r := w;
    for a := 0 to 128
      invariant WorkInv(g, ids, s, t, r, cur, a) && |w.dstates| <= |r.dstates| && r.dstates[cur] == w.dstates[cur]
      invariant Unseen(g, r) <= Unseen(g, w) && (Unseen(g, r) == Unseen(g, w) ==> |r.stack| <= |w.stack|)
    {
      r := FillColumn(r, cur, a, charset, g, ids, s, t);
    }
  }

  method NfaToDfa(start: NFAState, ghost g: Nfa<NFAState>, ghost ids: map<NFAState, nat>, ghost t: NFAState)
    returns (dfa: DFA, ghost sets: seq<set<NFAState>>)
    requires Edges(g) && Marked(ids, {t}, g.Keys) && start in g
    ensures SubsetDfa(g, start, t, sets, dfa)
    ensures Table(dfa) && !dfa.accept[0]
  {
    hide Move, Closure, Sum, Edges, TranOk, Unseen, Table;
    assert Elems([start]) == {start};
    var ec := EClosure([start], g);
    ClosureInside(g, {start});
    var d := NfaDState(ec, ids, {t});
    SameElems(d.states, ec);
    Permuted(ec, d.states);
    var w := Work([d], [seq(128, i => 0)], [false], [0]);
    assert WorkInv(g, ids, start, t, w, -1, 0);
    hide WorkInv, Marked;
    while |w.stack| > 0
      invariant WorkInv(g, ids, start, t, w, -1, 0)
      decreases Unseen(g, w), |w.stack|
    {
      var cur := w.stack[|w.stack| - 1];
      PopKeeps(g, ids, start, t, w);
      PopUnseen(g, w);
      w := Expand(w.(stack := w.stack[..|w.stack| - 1]), cur, g, ids, start, t);
      ExpandedKeeps(g, ids, start, t, w, cur);
    }
    sets := Sets(w.dstates);
    dfa := DFA(w.dtran, w.daccept);
    WorkDone(g, ids, start, t, w);
    SubsetTable(g, start, t, sets, dfa);
  }

  lemma ClosureInside<N>(g: Nfa<N>, s: set<N>)
    ensures Closure(g, s) <= g.Keys
  {
  }

  lemma PopKeeps(g: Nfa<NFAState>, ids: map<NFAState, nat>, s: NFAState, t: NFAState, w: Work)
    requires WorkInv(g, ids, s, t, w, -1, 0) && |w.stack| > 0
    ensures var cur := w.stack[|w.stack| - 1];
      cur < |w.dstates| && WorkInv(g, ids, s, t, w.(stack := w.stack[..|w.stack| - 1]), cur, 0)
  {
    hide Move, Closure, TranOk, Sum, DStateOk;
    var n := |w.stack| - 1;
    var cur := w.stack[n];
    var r := w.(stack := w.stack[..n]);
    assert w.stack == r.stack + [cur];
    forall k | 0 <= k < |r.dtran| ensures RowTo(g, Sets(r.dstates), k, r.dtran[k], Filled(r, cur, 0, k)) {
      assert RowTo(g, Sets(w.dstates), k, w.dtran[k], Filled(w, -1, 0, k));
      assert k in w.stack <==> k in r.stack || k == cur;
    }
  }

  lemma PopUnseen(g: Nfa<NFAState>, w: Work)
    requires |w.stack| > 0
    ensures Unseen(g, w.(stack := w.stack[..|w.stack| - 1])) == Unseen(g, w)
  {
  }

  lemma ExpandedKeeps(g: Nfa<NFAState>, ids: map<NFAState, nat>, s: NFAState, t: NFAState, w: Work, cur: nat)
    requires WorkInv(g, ids, s, t, w, cur, 128)
    ensures WorkInv(g, ids, s, t, w, -1, 0)
  {
    hide Move, Closure, TranOk, Sum, DStateOk, RowTo;
    forall k | 0 <= k < |w.dtran| ensures RowTo(g, Sets(w.dstates), k, w.dtran[k], Filled(w, -1, 0, k)) {
      assert RowTo(g, Sets(w.dstates), k, w.dtran[k], Filled(w, cur, 128, k));
    }
  }

  lemma WorkDone(g: Nfa<NFAState>, ids: map<NFAState, nat>, s: NFAState, t: NFAState, w: Work)
    requires WorkInv(g, ids, s, t, w, -1, 0) && w.stack == []
    ensures SubsetDfa(g, s, t, Sets(w.dstates), DFA(w.dtran, w.daccept))
  {
    hide Move, Closure, TranOk, Sum, DStateOk;
    forall i | 0 <= i < |w.dtran| ensures RowTo(g, Sets(w.dstates), i, w.dtran[i], 128) {
      assert Filled(w, -1, 0, i) == 128;
    }
  }

  // ---- matching ---------------------------------------------------------------------------------

  method Match(dfa: DFA, s: seq<Letter>) returns (r: bool)
    requires Table(dfa)
    ensures r == dfa.accept[StateAfter(dfa, s)]
  {
    var st: nat := 0;
    for i := 0 to |s|
      invariant st == StateAfter(dfa, s[..i])
    {
      assert s[..i + 1][..i] == s[..i];
      st := dfa.tran[st][s[i] as int];
    }
    assert s[..|s|] == s;
    r := dfa.accept[st];
  }
}
