/** Every array or object text over the lexemes of JsonTree is read from bracket to bracket by both tokenizers. */
module JsonLevels {
  import opened Collections
  import opened JsonTokens
  import opened JsonTree
  import opened JsonSound
  import opened JsonComplete
  import opened JsonFast

  // ---- brackets in token sequences ----------------------------------------------------------------

  function Delta(t: Token): int {
    if t.kind == Object || t.kind == Array then 1 else if t.kind == CloseObject || t.kind == CloseArray then -1 else 0
  }

  /** Brackets opened and not closed. */
  function Depth(toks: seq<Token>): int {
    if toks == [] then 0 else Depth(toks[..|toks| - 1]) + Delta(toks[|toks| - 1])
  }

  /** No bracket is closed before it is opened, and none stays open. */
  ghost predicate Balanced(toks: seq<Token>) {
    Depth(toks) == 0 && forall k :: 0 <= k <= |toks| ==> Depth(toks[..k]) >= 0
  }

  lemma {:induction false} DepthCat(a: seq<Token>, b: seq<Token>)
    ensures Depth(a + b) == Depth(a) + Depth(b)
    decreases |b|
  {
    if b == [] {
      assert a + b == a;
    } else {
      var n := |b| - 1;
      assert (a + b)[..|a + b| - 1] == a + b[..n];
      DepthCat(a, b[..n]);
    }
  }

  lemma PrefixDepth(a: seq<Token>, b: seq<Token>, k: nat)
    requires k <= |a + b|
    ensures Depth((a + b)[..k]) == if k <= |a| then Depth(a[..k]) else Depth(a) + Depth(b[..k - |a|])
  {
    if k <= |a| {
      assert (a + b)[..k] == a[..k];
    } else {
      assert (a + b)[..k] == a + b[..k - |a|];
      DepthCat(a, b[..k - |a|]);
    }
  }

  lemma BalancedCat(a: seq<Token>, b: seq<Token>)
    requires Balanced(a) && Balanced(b)
    ensures Balanced(a + b)
  {
    hide Depth;
    DepthCat(a, b);
    forall k | 0 <= k <= |a + b| ensures Depth((a + b)[..k]) >= 0 {
      PrefixDepth(a, b, k);
    }
  }

  lemma BalancedOne(t: Token)
    requires Delta(t) == 0
    ensures Balanced([t])
  {
    assert Depth([t]) == Depth([t][..0]) + 0;
    assert [t][..0] == [] && [t][..1] == [t];
  }

  /** Between brackets the depth stays above the level outside. */
  lemma BracketDepth(open: Token, body: seq<Token>, close: Token, k: nat)
    requires Delta(open) == 1 && Delta(close) == -1 && Balanced(body) && k <= |body| + 2
    ensures var all := [open] + body + [close];
      |all| == |body| + 2 && Depth(all[..k]) >= (if 0 < k < |all| then 1 else 0) &&
        (k == |all| ==> Depth(all[..k]) == 0)
  {
    var all := [open] + body + [close];
    assert Depth([open]) == 1 by { assert [open][..0] == []; }
    assert Depth([close]) == -1 by { assert [close][..0] == []; }
    assert Depth([]) == 0;
    hide Depth;
    assert all == [open] + (body + [close]);
    PrefixDepth([open], body + [close], k);
    assert [open][..0] == [] && [open][..1] == [open];
    if k > 1 {
      PrefixDepth(body, [close], k - 1);
      assert body[..|body|] == body && [close][..0] == [] && [close][..1] == [close];
    }
  }

  lemma BracketsBalance(open: Token, body: seq<Token>, close: Token)
    requires Delta(open) == 1 && Delta(close) == -1 && Balanced(body)
    ensures Balanced([open] + body + [close])
  {
    var all := [open] + body + [close];
    forall k | 0 <= k <= |all| ensures Depth(all[..k]) >= 0 { BracketDepth(open, body, close, k); }
    BracketDepth(open, body, close, |all|);
    assert all[..|all|] == all;
  }

  lemma {:induction false} TreeBalances(v: Value)
    requires WellFormed(v)
    ensures Balanced(Tokens(v))
    decreases v
  {
    hide Balanced, NumberOk, StringOk;
    match v
    case Scalar(t) => BalancedOne(t);
    case Arr(items, ws) =>
      ItemsBalance(items);
      BracketsBalance(Token(Array, "["), ItemsTokens(items), Token(CloseArray, "]"));
    case Obj(members, ws) =>
      MembersBalance(members);
      BracketsBalance(Token(Object, "{"), MembersTokens(members), Token(CloseObject, "}"));
  }

  lemma {:induction false} ItemsBalance(items: Items)
    requires ItemsOk(items)
    ensures Balanced(ItemsTokens(items))
    decreases items
  {
    match items
    case NoItems =>
    case FirstItem(w, v) =>
      hide Balanced, WellFormed;
      TreeBalances(v);
    case NextItem(init, w, w', v) =>
      hide Balanced, WellFormed;
      ItemsBalance(init);
      TreeBalances(v);
      BalancedCat(ItemsTokens(init), Tokens(v));
  }

  lemma {:induction false} MembersBalance(members: Members)
    requires MembersOk(members)
    ensures Balanced(MembersTokens(members))
    decreases members
  {
    match members
    case NoMembers =>
    case FirstMember(m) =>
      hide Balanced;
      MemberBalances(m);
    case NextMember(init, w, m) =>
      hide Balanced;
      MembersBalance(init);
      MemberBalances(m);
      BalancedCat(MembersTokens(init), [Token(String, m.key)] + Tokens(m.v));
      Assoc(MembersTokens(init), [Token(String, m.key)], Tokens(m.v));
  }

  lemma {:induction false} MemberBalances(m: Member)
    requires MemberOk(m)
    ensures Balanced([Token(String, m.key)] + Tokens(m.v))
    decreases m
  {
    hide Balanced, WellFormed;
    BalancedOne(Token(String, m.key));
    TreeBalances(m.v);
    BalancedCat([Token(String, m.key)], Tokens(m.v));
  }

  /** Every proper beginning of an array's or object's tokens leaves a bracket open. */
  lemma OpenInside(v: Value, k: nat)
    requires WellFormed(v) && !v.Scalar? && 0 < k < |Tokens(v)|
    ensures Depth(Tokens(v)[..k]) > 0
  {
    hide Depth, Balanced;
    if v.Arr? {
      ItemsBalance(v.items);
      BracketDepth(Token(Array, "["), ItemsTokens(v.items), Token(CloseArray, "]"), k);
    } else {
      MembersBalance(v.members);
      BracketDepth(Token(Object, "{"), MembersTokens(v.members), Token(CloseObject, "}"), k);
    }
  }

  // ---- the machine counts the same brackets -------------------------------------------------------

  /** Containers that the machine is in. */
  function Level(st: St): nat {
    |st.top| + if st.cur == 0 then 0 else 1
  }

  /** Only states inside containers are saved, and at the top level none is. */
  ghost predicate Levelled(st: St) {
    (st.cur == 0 ==> st.top == []) && forall n :: 0 <= n < |st.top| ==> st.top[n] != 0
  }

  lemma ReadLevel(data: string, st: St)
    requires st.i < |data| && Levelled(st) && ReadValue(data, st).1.kind != Invalid
    ensures var (s, t) := ReadValue(data, st); Levelled(s) && Level(s) == Level(st) + Delta(t)
  {
    hide ScanNumber, ScanString, ScanWord;
  }

  lemma NextLevel(data: string, st: St)
    requires st.i <= |data| && Levelled(st) && Next(data, st).1.kind != Invalid
    ensures var (s, t) := Next(data, st); Levelled(s) && Level(s) == Level(st) + Delta(t)
  {
    hide ScanString, ReadValue, SkipWs;
    var at := st.(i := SkipWs(data, st.i));
    if at.i < |data| && st.err == NoErr { DispatchLevel(data, at); }
  }

  lemma DispatchLevel(data: string, st: St)
    requires st.i < |data| && Levelled(st) && Dispatch(data, st).1.kind != Invalid
    ensures var (s, t) := Dispatch(data, st); Levelled(s) && Level(s) == Level(st) + Delta(t)
  {
    hide ScanString, ReadValue, SkipWs;
    if st.cur == 1 && data[st.i] != ']' {
      ReadLevel(data, st.(cur := 2));
    } else if st.cur == 2 && data[st.i] == ',' && After(data, st).Some? {
      ReadLevel(data, After(data, st).value);
    } else if st.cur == 4 && data[st.i] == ':' && After(data, st).Some? {
      ReadLevel(data, After(data, st).value.(cur := 5));
    } else if st.cur == 0 || st.cur > 5 {
      ReadLevel(data, st);
    }
  }

  lemma {:induction false} RunLevel(data: string, sts: seq<St>, toks: seq<Token>, k: nat)
    requires IterRun(data, sts, toks) && k <= |toks| && Levelled(sts[0])
    ensures Levelled(sts[k]) && Level(sts[k]) == Level(sts[0]) + Depth(toks[..k])
  {
    hide Next, Level, Levelled;
    if k > 0 {
      RunLevel(data, sts, toks, k - 1);
      RunNext(data, sts, toks, k - 1);
      NextLevel(data, sts[k - 1]);
      assert toks[..k][..k - 1] == toks[..k - 1];
    }
  }

  // ---- both tokenizers, on every text -------------------------------------------------------------

  /** The run over any array or object text goes from bracket to bracket. */
  lemma TextIsBracketed(data: string, pre: string, w: string, v: Value, rest: string) returns (sts: seq<St>)
    requires WellFormed(v) && !v.Scalar? && Blank(w) && data == pre + w + Text(v) + rest
    ensures Bracketed(data, sts, Tokens(v)) && sts[0].i == |pre| && sts[|Tokens(v)|].i == |pre| + |w| + |Text(v)|
  {
    TextIsAccepted(data, pre, w, v, rest);
    var st, toks := St(|pre|, 0, [], NoErr), Tokens(v);
    sts := StatesOf(data, st, toks);
    FirstToken(v);
    hide Next, RunFrom, Text, Tokens, WellFormed, Depth;
    forall k | 0 < k < |toks| ensures sts[k].cur != 0 {
      RunLevel(data, sts, toks, k);
      OpenInside(v, k);
    }
  }

  lemma FirstToken(v: Value)
    requires !v.Scalar?
    ensures |Tokens(v)| > 0 && (Tokens(v)[0].kind == Object || Tokens(v)[0].kind == Array)
  {
  }

  /** The fast tokenizer, too, reads every array or object text as its tree. */
  lemma FastReadsTexts(data: string, pre: string, w: string, v: Value, rest: string)
    requires WellFormed(v) && !v.Scalar? && Blank(w) && data == pre + w + Text(v) + rest
    ensures FastTokens(data, |pre|, |Tokens(v)|) == Tokens(v)
  {
    hide *;
    var sts := TextIsBracketed(data, pre, w, v, rest);
    FastAgrees(data, sts, Tokens(v));
  }
}
