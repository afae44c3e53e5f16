/** The Thompson combinators on graphs, and the languages they build. */
module RegexThompson {
  import opened RegexLanguage
  import opened RegexPaths

  /** Nothing enters the start, nothing leaves the end, and every state can still reach the end. */
  ghost predicate Thompson<N>(g: Nfa<N>, s: N, t: N) {
    && s in g && t in g && s != t && g[t] == {}
    && (forall n, e :: n in g && e in g[n] ==> e.next in g && e.next != s)
  }

  ghost predicate Trim<N>(g: Nfa<N>, t: N) {
    forall n :: n in g ==> exists w: string :: Reads(g, n, w, t)
  }

  ghost predicate Denotes<N>(g: Nfa<N>, s: N, t: N, re: Re) {
    && Thompson(g, s, t) && Trim(g, t)
    && forall w: string :: Reads(g, s, w, t) <==> In(re, w)
  }

  // ---- a single character -----------------------------------------------------------------------

  ghost function CharGraph<N>(s: N, c: Letter, t: N): (g: Nfa<N>) {
    map[s := {Edge(false, c, t)}, t := {}]
  }

  lemma CharDenotes<N>(s: N, c: Letter, t: N)
    requires s != t
    ensures Denotes(CharGraph(s, c, t), s, t, Chr(c))
  {
    var g := CharGraph(s, c, t);
    var e := Edge(false, c, t);
    assert e in g[s];
    ReadsEdge(g, s, e);
    ReadsNothing(g, t);
    forall w: string ensures Reads(g, s, w, t) ==> w == [c] {
      if k: nat :| Path(g, s, w, t, k) {
        var e := FirstEdge(g, s, w, t, k);
        assert Path(g, t, w[1..], t, k - 1);
      }
    }
  }

  // ---- concatenation: the end of a takes over the edges of the start of b -----------------------

  ghost function CatGraph<N>(ga: Nfa<N>, ta: N, gb: Nfa<N>, sb: N): (g: Nfa<N>)
    requires sb in gb
  {
    ga[ta := gb[sb]] + (gb - {sb})
  }

  lemma {:induction false} CatRight<N>(ga: Nfa<N>, sa: N, ta: N, gb: Nfa<N>, sb: N, tb: N, y: N, v: string, k: nat)
    requires Thompson(ga, sa, ta) && Thompson(gb, sb, tb) && ga.Keys !! gb.Keys
    requires y in gb && y != sb && Path(CatGraph(ga, ta, gb, sb), y, v, tb, k)
    ensures Path(gb, y, v, tb, k)
    decreases k
  {
    var g := CatGraph(ga, ta, gb, sb);
    if k > 0 {
      var e := FirstEdge(g, y, v, tb, k);
      CatRight(ga, sa, ta, gb, sb, tb, e.next, if e.epsilon then v else v[1..], k - 1);
      assert Take(gb, e, v, tb, k);
    }
  }

  /** From the old end of a on, the joined graph reads what b reads from its start. */
  lemma CatAtEnd<N>(ga: Nfa<N>, sa: N, ta: N, gb: Nfa<N>, sb: N, tb: N, v: string, k: nat)
    requires Thompson(ga, sa, ta) && Thompson(gb, sb, tb) && ga.Keys !! gb.Keys
    requires Path(CatGraph(ga, ta, gb, sb), ta, v, tb, k)
    ensures Reads(gb, sb, v, tb)
  {
    var g := CatGraph(ga, ta, gb, sb);
    var e := FirstEdge(g, ta, v, tb, k);
    CatRight(ga, sa, ta, gb, sb, tb, e.next, if e.epsilon then v else v[1..], k - 1);
    assert Take(gb, e, v, tb, k);
    assert Path(gb, sb, v, tb, k);
  }

  lemma {:induction false} CatSplits<N>(ga: Nfa<N>, sa: N, ta: N, gb: Nfa<N>, sb: N, tb: N, x: N, w: string, k: nat)
    returns (u: string, v: string)
    requires Thompson(ga, sa, ta) && Thompson(gb, sb, tb) && ga.Keys !! gb.Keys
    requires x in ga && Path(CatGraph(ga, ta, gb, sb), x, w, tb, k)
    ensures w == u + v && Reads(ga, x, u, ta) && Reads(gb, sb, v, tb)
    decreases k
  {
    var g := CatGraph(ga, ta, gb, sb);
    if x == ta {
      CatAtEnd(ga, sa, ta, gb, sb, tb, w, k);
      ReadsNothing(ga, ta);
      u, v := [], w;
    } else {
      var e := FirstEdge(g, x, w, tb, k);
      var u', v' := CatSplits(ga, sa, ta, gb, sb, tb, e.next, if e.epsilon then w else w[1..], k - 1);
      ReadsAfter(ga, x, e, u', ta);
      u, v := if e.epsilon then u' else [e.ch] + u', v';
    }
  }

  lemma CatFromEnd<N>(ga: Nfa<N>, sa: N, ta: N, gb: Nfa<N>, sb: N, tb: N, v: string)
    requires Thompson(ga, sa, ta) && Thompson(gb, sb, tb) && ga.Keys !! gb.Keys
    requires Reads(gb, sb, v, tb)
    ensures Reads(CatGraph(ga, ta, gb, sb), ta, v, tb)
  {
    var g := CatGraph(ga, ta, gb, sb);
    var k: nat :| Path(gb, sb, v, tb, k);
    var e := FirstEdge(gb, sb, v, tb, k);
    var rest := if e.epsilon then v else v[1..];
    CatStays(ga, sa, ta, gb, sb, tb, e.next, rest, k - 1);
    ReadsAfter(g, ta, e, rest, tb);
    assert !e.epsilon ==> [e.ch] + rest == v;
  }

  lemma {:induction false} CatStays<N>(ga: Nfa<N>, sa: N, ta: N, gb: Nfa<N>, sb: N, tb: N, y: N, v: string, k: nat)
    requires Thompson(ga, sa, ta) && Thompson(gb, sb, tb) && ga.Keys !! gb.Keys
    requires y in gb && y != sb && Path(gb, y, v, tb, k)
    ensures Reads(CatGraph(ga, ta, gb, sb), y, v, tb)
    decreases k
  {
    var g := CatGraph(ga, ta, gb, sb);
    if k == 0 {
      ReadsNothing(g, y);
    } else {
      var e := FirstEdge(gb, y, v, tb, k);
      var rest := if e.epsilon then v else v[1..];
      CatStays(ga, sa, ta, gb, sb, tb, e.next, rest, k - 1);
      ReadsAfter(g, y, e, rest, tb);
      assert !e.epsilon ==> [e.ch] + rest == v;
    }
  }

  lemma CatJoins<N>(ga: Nfa<N>, sa: N, ta: N, gb: Nfa<N>, sb: N, tb: N, x: N, u: string, v: string)
    requires Thompson(ga, sa, ta) && Thompson(gb, sb, tb) && ga.Keys !! gb.Keys
    requires Reads(ga, x, u, ta) && Reads(gb, sb, v, tb)
    ensures Reads(CatGraph(ga, ta, gb, sb), x, u + v, tb)
  {
    var g := CatGraph(ga, ta, gb, sb);
    ReadsEmbeds(ga, g, x, u, ta);
    CatFromEnd(ga, sa, ta, gb, sb, tb, v);
    ReadsCat(g, x, u, ta, v, tb);
  }

  lemma CatDenotes<N>(ga: Nfa<N>, sa: N, ta: N, a: Re, gb: Nfa<N>, sb: N, tb: N, b: Re)
    requires Denotes(ga, sa, ta, a) && Denotes(gb, sb, tb, b) && ga.Keys !! gb.Keys
    ensures Denotes(CatGraph(ga, ta, gb, sb), sa, tb, Cat(a, b))
  {
    var g := CatGraph(ga, ta, gb, sb);
    CatShape(ga, sa, ta, gb, sb, tb);
    hide Reads, In, CatGraph, Thompson;
    forall w: string ensures Reads(g, sa, w, tb) <==> In(Cat(a, b), w) {
      if Reads(g, sa, w, tb) { CatReads(ga, sa, ta, a, gb, sb, tb, b, w); }
      if In(Cat(a, b), w) { CatWords(ga, sa, ta, a, gb, sb, tb, b, w); }
    }
    forall n | n in g ensures exists w: string :: Reads(g, n, w, tb) {
      CatTrims(ga, sa, ta, gb, sb, tb, n);
    }
  }

  lemma CatShape<N>(ga: Nfa<N>, sa: N, ta: N, gb: Nfa<N>, sb: N, tb: N)
    requires Thompson(ga, sa, ta) && Thompson(gb, sb, tb) && ga.Keys !! gb.Keys
    ensures Thompson(CatGraph(ga, ta, gb, sb), sa, tb)
  {
  }

  lemma CatWords<N>(ga: Nfa<N>, sa: N, ta: N, a: Re, gb: Nfa<N>, sb: N, tb: N, b: Re, w: string)
    requires Denotes(ga, sa, ta, a) && Denotes(gb, sb, tb, b) && ga.Keys !! gb.Keys && In(Cat(a, b), w)
    ensures Reads(CatGraph(ga, ta, gb, sb), sa, w, tb)
  {
    hide *;
    var u, v := CatParts(a, b, w);
    DenotesReads(ga, sa, ta, a, u);
    DenotesReads(gb, sb, tb, b, v);
    CatJoins(ga, sa, ta, gb, sb, tb, sa, u, v);
  }

  lemma DenotesReads<N>(g: Nfa<N>, s: N, t: N, re: Re, w: string)
    requires Denotes(g, s, t, re) && In(re, w)
    ensures Thompson(g, s, t) && Reads(g, s, w, t)
  {
    hide Thompson, Reads, In;
  }

  lemma CatReads<N>(ga: Nfa<N>, sa: N, ta: N, a: Re, gb: Nfa<N>, sb: N, tb: N, b: Re, w: string)
    requires Denotes(ga, sa, ta, a) && Denotes(gb, sb, tb, b) && ga.Keys !! gb.Keys
    requires Reads(CatGraph(ga, ta, gb, sb), sa, w, tb)
    ensures In(Cat(a, b), w)
  {
    var k: nat :| Path(CatGraph(ga, ta, gb, sb), sa, w, tb, k);
    var u, v := CatSplits(ga, sa, ta, gb, sb, tb, sa, w, k);
    InCat(a, b, u, v);
  }

  lemma CatTrims<N>(ga: Nfa<N>, sa: N, ta: N, gb: Nfa<N>, sb: N, tb: N, n: N)
    requires Thompson(ga, sa, ta) && Thompson(gb, sb, tb) && Trim(ga, ta) && Trim(gb, tb) && ga.Keys !! gb.Keys
    requires n in CatGraph(ga, ta, gb, sb)
    ensures exists w: string :: Reads(CatGraph(ga, ta, gb, sb), n, w, tb)
  {
    if n in ga {
      var u: string :| Reads(ga, n, u, ta);
      var v: string :| Reads(gb, sb, v, tb);
      CatJoins(ga, sa, ta, gb, sb, tb, n, u, v);
    } else {
      var v: string :| Reads(gb, n, v, tb);
      var k: nat :| Path(gb, n, v, tb, k);
      CatStays(ga, sa, ta, gb, sb, tb, n, v, k);
    }
  }

  // ---- alternation ------------------------------------------------------------------------------

  ghost function Eps<N>(n: N): (e: Edge<N>) {
    Edge(true, '\0', n)
  }

  ghost function OrGraph<N>(ga: Nfa<N>, sa: N, ta: N, gb: Nfa<N>, sb: N, tb: N, s: N, t: N): (g: Nfa<N>) {
    ga[ta := {Eps(t)}] + gb[tb := {Eps(t)}] + map[s := {Eps(sa), Eps(sb)}, t := {}]
  }

  /** A graph whose part ga is left only through an epsilon edge from its end to t, where everything stops. */
  ghost predicate Exits<N>(g: Nfa<N>, ga: Nfa<N>, sa: N, ta: N, t: N) {
    && Thompson(ga, sa, ta) && t !in ga && t in g && g[t] == {}
    && (forall n :: n in ga ==> n in g)
    && (forall n :: n in ga && n in g && n != ta ==> g[n] == ga[n])
    && ta in g && g[ta] == {Eps(t)}
  }

  lemma {:induction false} ExitReads<N>(g: Nfa<N>, ga: Nfa<N>, sa: N, ta: N, t: N, x: N, w: string, k: nat)
    requires Exits(g, ga, sa, ta, t) && x in ga && Path(g, x, w, t, k)
    ensures Reads(ga, x, w, ta)
    decreases k
  {
    var e := FirstEdge(g, x, w, t, k);
    if x == ta {
      assert Path(g, t, w, t, k - 1);
      assert w == [];
      ReadsNothing(ga, ta);
    } else {
      var rest := if e.epsilon then w else w[1..];
      ExitReads(g, ga, sa, ta, t, e.next, rest, k - 1);
      ReadsAfter(ga, x, e, rest, ta);
      assert !e.epsilon ==> [e.ch] + rest == w;
    }
  }

  lemma ExitJoins<N>(g: Nfa<N>, ga: Nfa<N>, sa: N, ta: N, t: N, x: N, w: string)
    requires Exits(g, ga, sa, ta, t) && Reads(ga, x, w, ta)
    ensures Reads(g, x, w, t)
  {
    ReadsEmbeds(ga, g, x, w, ta);
    ReadsEdge(g, ta, Eps(t));
    ReadsCat(g, x, w, ta, [], t);
    assert w + [] == w;
  }

  lemma OrExits<N>(ga: Nfa<N>, sa: N, ta: N, gb: Nfa<N>, sb: N, tb: N, s: N, t: N)
    requires Thompson(ga, sa, ta) && Thompson(gb, sb, tb) && ga.Keys !! gb.Keys !! {s} !! {t}
    ensures Exits(OrGraph(ga, sa, ta, gb, sb, tb, s, t), ga, sa, ta, t)
    ensures Exits(OrGraph(ga, sa, ta, gb, sb, tb, s, t), gb, sb, tb, t)
    ensures Thompson(OrGraph(ga, sa, ta, gb, sb, tb, s, t), s, t)
  {
  }

  lemma OrReads<N>(ga: Nfa<N>, sa: N, ta: N, a: Re, gb: Nfa<N>, sb: N, tb: N, b: Re, s: N, t: N, w: string)
    requires Denotes(ga, sa, ta, a) && Denotes(gb, sb, tb, b) && ga.Keys !! gb.Keys !! {s} !! {t}
    ensures Reads(OrGraph(ga, sa, ta, gb, sb, tb, s, t), s, w, t) <==> In(Alt(a, b), w)
  {
    var g := OrGraph(ga, sa, ta, gb, sb, tb, s, t);
    OrExits(ga, sa, ta, gb, sb, tb, s, t);
    if k: nat :| Path(g, s, w, t, k) {
      var e := FirstEdge(g, s, w, t, k);
      if e == Eps(sa) {
        ExitReads(g, ga, sa, ta, t, sa, w, k - 1);
      } else {
        ExitReads(g, gb, sb, tb, t, sb, w, k - 1);
      }
    }
    if In(a, w) {
      ExitJoins(g, ga, sa, ta, t, sa, w);
      ReadsAfter(g, s, Eps(sa), w, t);
    }
    if In(b, w) {
      ExitJoins(g, gb, sb, tb, t, sb, w);
      ReadsAfter(g, s, Eps(sb), w, t);
    }
  }

  lemma ExitTrims<N>(g: Nfa<N>, ga: Nfa<N>, sa: N, ta: N, t: N, n: N)
    requires Exits(g, ga, sa, ta, t) && Trim(ga, ta) && n in ga
    ensures exists w: string :: Reads(g, n, w, t)
  {
    var w: string :| Reads(ga, n, w, ta);
    ExitJoins(g, ga, sa, ta, t, n, w);
  }

  lemma OrDenotes<N>(ga: Nfa<N>, sa: N, ta: N, a: Re, gb: Nfa<N>, sb: N, tb: N, b: Re, s: N, t: N)
    requires Denotes(ga, sa, ta, a) && Denotes(gb, sb, tb, b) && ga.Keys !! gb.Keys !! {s} !! {t}
    ensures Denotes(OrGraph(ga, sa, ta, gb, sb, tb, s, t), s, t, Alt(a, b))
  {
    hide Reads, In;
    var g := OrGraph(ga, sa, ta, gb, sb, tb, s, t);
    OrExits(ga, sa, ta, gb, sb, tb, s, t);
    forall w: string ensures Reads(g, s, w, t) <==> In(Alt(a, b), w) {
      OrReads(ga, sa, ta, a, gb, sb, tb, b, s, t, w);
    }
    hide Exits;
    forall n | n in g ensures exists w: string :: Reads(g, n, w, t) {
      if n in ga {
        ExitTrims(g, ga, sa, ta, t, n);
      } else if n in gb {
        ExitTrims(g, gb, sb, tb, t, n);
      } else if n == t {
        ReadsNothing(g, t);
      } else {
        ExitTrims(g, ga, sa, ta, t, sa);
        var w: string :| Reads(g, sa, w, t);
        ReadsAfter(g, s, Eps(sa), w, t);
      }
    }
  }

  // ---- repetition -------------------------------------------------------------------------------

  ghost function StarGraph<N>(ga: Nfa<N>, sa: N, ta: N, s: N, t: N): (g: Nfa<N>) {
    ga[ta := {Eps(t), Eps(sa)}] + map[s := {Eps(sa), Eps(t)}, t := {}]
  }

  lemma {:induction false} StarSplits<N>(ga: Nfa<N>, sa: N, ta: N, a: Re, s: N, t: N, x: N, w: string, k: nat)
    returns (u: string, v: string)
    requires Denotes(ga, sa, ta, a) && ga.Keys !! {s} !! {t}
    requires x in ga && Path(StarGraph(ga, sa, ta, s, t), x, w, t, k)
    ensures w == u + v && Reads(ga, x, u, ta) && In(Star(a), v)
    decreases k
  {
    var g := StarGraph(ga, sa, ta, s, t);
    var e := FirstEdge(g, x, w, t, k);
    if x == ta {
      ReadsNothing(ga, ta);
      u, v := [], w;
      if e == Eps(sa) {
        var u', v' := StarSplits(ga, sa, ta, a, s, t, sa, w, k - 1);
        InStar(a, u', v');
      } else {
        assert Path(g, t, w, t, k - 1);
      }
    } else {
      var u', v' := StarSplits(ga, sa, ta, a, s, t, e.next, if e.epsilon then w else w[1..], k - 1);
      ReadsAfter(ga, x, e, u', ta);
      u, v := if e.epsilon then u' else [e.ch] + u', v';
    }
  }

  lemma {:induction false} StarJoins<N>(ga: Nfa<N>, sa: N, ta: N, a: Re, s: N, t: N, x: N, u: string, v: string)
    requires Denotes(ga, sa, ta, a) && ga.Keys !! {s} !! {t}
    requires Reads(ga, x, u, ta) && In(Star(a), v)
    ensures Reads(StarGraph(ga, sa, ta, s, t), x, u + v, t)
    decreases |v|
  {
    var g := StarGraph(ga, sa, ta, s, t);
    ReadsEmbeds(ga, g, x, u, ta);
    if v == [] {
      ReadsEdge(g, ta, Eps(t));
    } else {
      var i :| 0 < i <= |v| && In(a, v[..i]) && In(Star(a), v[i..]);
      StarJoins(ga, sa, ta, a, s, t, sa, v[..i], v[i..]);
      assert v[..i] + v[i..] == v;
      ReadsAfter(g, ta, Eps(sa), v, t);
    }
    ReadsCat(g, x, u, ta, v, t);
  }

  lemma StarReads<N>(ga: Nfa<N>, sa: N, ta: N, a: Re, s: N, t: N, w: string)
    requires Denotes(ga, sa, ta, a) && ga.Keys !! {s} !! {t}
    ensures Reads(StarGraph(ga, sa, ta, s, t), s, w, t) <==> In(Star(a), w)
  {
    var g := StarGraph(ga, sa, ta, s, t);
    if k: nat :| Path(g, s, w, t, k) {
      var e := FirstEdge(g, s, w, t, k);
      if e == Eps(sa) {
        var u, v := StarSplits(ga, sa, ta, a, s, t, sa, w, k - 1);
        InStar(a, u, v);
      } else {
        assert Path(g, t, w, t, k - 1);
      }
    }
    if In(Star(a), w) {
      if w == [] {
        ReadsEdge(g, s, Eps(t));
      } else {
        var i :| 0 < i <= |w| && In(a, w[..i]) && In(Star(a), w[i..]);
        StarJoins(ga, sa, ta, a, s, t, sa, w[..i], w[i..]);
        assert w[..i] + w[i..] == w;
        ReadsAfter(g, s, Eps(sa), w, t);
      }
    }
  }

  lemma StarDenotes<N>(ga: Nfa<N>, sa: N, ta: N, a: Re, s: N, t: N)
    requires Denotes(ga, sa, ta, a) && ga.Keys !! {s} !! {t}
    ensures Denotes(StarGraph(ga, sa, ta, s, t), s, t, Star(a))
  {
    hide Reads;
    var g := StarGraph(ga, sa, ta, s, t);
    forall w: string ensures Reads(g, s, w, t) <==> In(Star(a), w) {
      StarReads(ga, sa, ta, a, s, t, w);
    }
    assert Thompson(g, s, t);
    forall n | n in g ensures exists w: string :: Reads(g, n, w, t) {
      if n in ga {
        var u: string :| Reads(ga, n, u, ta);
        StarJoins(ga, sa, ta, a, s, t, n, u, []);
      } else if n == t {
        ReadsNothing(g, t);
      } else {
        ReadsEdge(g, s, Eps(t));
      }
    }
  }
}
