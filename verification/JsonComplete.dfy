/** Every array or object text over the lexemes of JsonTree is accepted, with the tokens of its tree. */
module JsonComplete {
  import opened Collections
  import opened JsonTokens
  import opened JsonTree
  import opened JsonSound

  /** Running Next over the expected tokens: the state reached, or None at the first difference. */
  function RunFrom(data: string, st: St, toks: seq<Token>): Option<St>
    decreases |toks|
  {
    if toks == [] then Some(st)
    else if st.i > |data| then None
    else
      var (s, t) := Next(data, st);
      if t == toks[0] && t.kind != Invalid then RunFrom(data, s, toks[1..]) else None
  }

  lemma {:induction false} RunFromCat(data: string, st: St, a: seq<Token>, b: seq<Token>)
    requires RunFrom(data, st, a).Some?
    ensures RunFrom(data, st, a + b) == RunFrom(data, RunFrom(data, st, a).value, b)
    decreases |a|
  {
    if a == [] {
      assert a + b == b;
    } else {
      assert (a + b)[1..] == a[1..] + b && (a + b)[0] == a[0];
      RunFromCat(data, Next(data, st).0, a[1..], b);
    }
  }

  lemma RunThen(data: string, st: St, a: seq<Token>, s: St, b: seq<Token>, e: St)
    requires RunFrom(data, st, a) == Some(s) && RunFrom(data, s, b) == Some(e)
    ensures RunFrom(data, st, a + b) == Some(e)
  {
    hide *;
    RunFromCat(data, st, a, b);
  }

  lemma RunOne(data: string, st: St, t: Token)
    requires st.i <= |data| && Next(data, st).1 == t && t.kind != Invalid
    ensures RunFrom(data, st, [t]) == Some(Next(data, st).0)
  {
    assert [t][1..] == [];
  }

  /** Skipping whitespace w before a byte that is not whitespace. */
  lemma {:induction false} SkipsBlank(data: string, i: nat, w: string)
    requires At(data, i, w) && Blank(w) && i + |w| < |data| && !IsWhitespace(data[i + |w|])
    ensures SkipWs(data, i) == i + |w|
    decreases |w|
  {
    if w != [] {
      AtFirst(data, i, w);
      SkipsBlank(data, i + 1, w[1..]);
    }
  }

  /** The byte after position i (of a value inside a container) is whitespace, a comma or a closing bracket. */
  ghost predicate Ends(data: string, i: nat) {
    i < |data| && Delimiter(data[i])
  }

  lemma FirstByte(v: Value)
    requires WellFormed(v)
    ensures |Text(v)| > 0 && !IsWhitespace(Text(v)[0]) && Text(v)[0] != ']' && Text(v)[0] != '}'
  {
    match v
    case Scalar(t) =>
      if t.kind == Number {
        var n: Num :| NumOk(n) && NumText(n) == t.text;
        assert t.text[0] == if n.neg then '-' else n.int_[0];
      }
    case Arr(items, ws) =>
    case Obj(members, ws) =>
  }

  lemma ScalarReads(data: string, st: St, t: Token)
    requires ScalarOk(t) && At(data, st.i, t.text) && Ends(data, st.i + |t.text|) && st.i < |data|
    ensures ReadValue(data, st) == (st.(i := st.i + |t.text|), t)
  {
    hide ScanNumber, ScanString, ScanDigits, NumberOk;
    match t.kind
    case String =>
      StringComplete(data, st.i, st.i + 1, t.text);
      assert data[st.i] == t.text[0] by { AtFirst(data, st.i, t.text); }
    case Number => NumberComplete(data, st.i, t.text);
    case Null => AtFirst(data, st.i, t.text);
    case True => AtFirst(data, st.i, t.text);
    case False => AtFirst(data, st.i, t.text);
  }

  /** The tokens of v, read from st, where the call of Next at st gets to reading a value at st1. */
  lemma {:induction false} RunValue(data: string, st: St, st1: St, v: Value)
    requires WellFormed(v) && At(data, st1.i, Text(v)) && (v.Scalar? ==> Ends(data, st1.i + |Text(v)|))
    requires Reaches(data, st, st1)
    ensures RunFrom(data, st, Tokens(v)) == Some(st1.(i := st1.i + |Text(v)|))
    decreases v
  {
    hide Next, RunFrom, ReadValue, At, ItemsText, MembersText, ItemsTokens, MembersTokens, NumberOk, StringOk;
    match v
    case Scalar(t) =>
      ScalarReads(data, st1, t);
      RunOne(data, st, t);
    case Arr(items, ws) => RunArray(data, st, st1, items, ws);
    case Obj(members, ws) => RunObject(data, st, st1, members, ws);
  }

  /** The call of Next at st gets to reading a value at st1. */
  ghost predicate Reaches(data: string, st: St, st1: St) {
    && st.i <= |data| && st1.i < |data| && st1.err == NoErr && Next(data, st) == ReadValue(data, st1)
    && (st1.cur == 0 ==> st1.top == [])
  }

  lemma {:induction false} RunArray(data: string, st: St, st1: St, items: Items, ws: string)
    requires ItemsOk(items) && Blank(ws) && At(data, st1.i, "[" + ItemsText(items) + ws + "]") && Reaches(data, st, st1)
    ensures RunFrom(data, st, [Token(Array, "[")] + ItemsTokens(items) + [Token(CloseArray, "]")])
         == Some(st1.(i := st1.i + |"[" + ItemsText(items) + ws + "]"|))
    decreases items, 3
  {
    hide Next, RunFrom, ReadValue, At, ItemsText, ItemsTokens, ItemsOk, Blank;
    var up := if st1.cur != 0 then st1.top + [st1.cur] else st1.top;
    var b := St(st1.i + 1, 1, up, NoErr);
    var e := b.i + |ItemsText(items)|;
    OpenReads(data, st, st1, "[", ItemsText(items), ws, "]");
    EndsBefore(data, e, ws, "]");
    RunOne(data, st, Token(Array, "["));
    RunItems(data, b, items);
    ArrayEnds(data, St(e, if items.NoItems? then 1 else 2, up, NoErr), ws, st1);
    RunFromCat(data, st, [Token(Array, "[")], ItemsTokens(items));
    RunFromCat(data, st, [Token(Array, "[")] + ItemsTokens(items), [Token(CloseArray, "]")]);
  }

  lemma {:induction false} RunObject(data: string, st: St, st1: St, members: Members, ws: string)
    requires MembersOk(members) && Blank(ws) && At(data, st1.i, "{" + MembersText(members) + ws + "}")
    requires Reaches(data, st, st1)
    ensures RunFrom(data, st, [Token(Object, "{")] + MembersTokens(members) + [Token(CloseObject, "}")])
         == Some(st1.(i := st1.i + |"{" + MembersText(members) + ws + "}"|))
    decreases members, 3
  {
    hide Next, RunFrom, ReadValue, At, MembersText, MembersTokens, MembersOk, Blank;
    var up := if st1.cur != 0 then st1.top + [st1.cur] else st1.top;
    var b := St(st1.i + 1, 3, up, NoErr);
    var e := b.i + |MembersText(members)|;
    OpenReads(data, st, st1, "{", MembersText(members), ws, "}");
    EndsBefore(data, e, ws, "}");
    RunOne(data, st, Token(Object, "{"));
    RunMembers(data, b, members);
    ObjectEnds(data, St(e, if members.NoMembers? then 3 else 5, up, NoErr), ws, st1);
    RunFromCat(data, st, [Token(Object, "{")], MembersTokens(members));
    RunFromCat(data, st, [Token(Object, "{")] + MembersTokens(members), [Token(CloseObject, "}")]);
  }

  /** What follows a value inside a container: whitespace, then a comma or the closing bracket. */
  lemma EndsBefore(data: string, i: nat, w: string, c: string)
    requires At(data, i, w) && Blank(w) && At(data, i + |w|, c) && (c == "," || c == "]" || c == "}")
    ensures Ends(data, i)
  {
    if w == [] {
      AtFirst(data, i, c);
    } else {
      AtFirst(data, i, w);
    }
  }

  /** The state before a value of an array, after whitespace w. */
  lemma FirstValue(data: string, st: St, w: string, v: Value)
    requires st.cur == 1 && st.err == NoErr && At(data, st.i, w) && Blank(w) && At(data, st.i + |w|, Text(v))
    requires WellFormed(v)
    ensures Reaches(data, st, St(st.i + |w|, 2, st.top, NoErr))
  {
    hide ReadValue, Text, WellFormed, SkipWs;
    FirstByte(v);
    AtFirst(data, st.i + |w|, Text(v));
    SkipsBlank(data, st.i, w);
  }

  /** The state after a separator, whitespace w before it and w' after it. */
  lemma SkipsSeparator(data: string, st: St, w: string, c: char, w': string, x: string)
    requires At(data, st.i, w) && Blank(w) && At(data, st.i + |w|, [c]) && At(data, st.i + |w| + 1, w') && Blank(w')
    requires At(data, st.i + |w| + 1 + |w'|, x) && |x| > 0 && !IsWhitespace(x[0]) && !IsWhitespace(c)
    ensures var j := st.i + |w|; var k := j + 1 + |w'|;
      && k < |data| && SkipWs(data, st.i) == j && data[j] == c && data[k] == x[0]
      && After(data, st.(i := j)) == Some(st.(i := k))
  {
    hide *;
    SkipsTo(data, st.i, w, [c]);
    SkipsTo(data, st.i + |w| + 1, w', x);
    AfterIs(data, st.(i := st.i + |w|), st.i + |w| + 1 + |w'|);
  }

  lemma SkipsTo(data: string, i: nat, w: string, x: string)
    requires At(data, i, w) && Blank(w) && At(data, i + |w|, x) && |x| > 0 && !IsWhitespace(x[0])
    ensures i + |w| < |data| && data[i + |w|] == x[0] && SkipWs(data, i) == i + |w|
  {
    AtFirst(data, i + |w|, x);
    hide *;
    SkipsBlank(data, i, w);
  }

  lemma AfterIs(data: string, st: St, k: nat)
    requires st.i < |data| && k < |data| && SkipWs(data, st.i + 1) == k
    ensures After(data, st) == Some(st.(i := k))
  {
    hide SkipWs;
  }

  lemma {:induction false} RunItems(data: string, st: St, items: Items)
    requires ItemsOk(items) && st.cur == 1 && st.err == NoErr && At(data, st.i, ItemsText(items))
    requires Ends(data, st.i + |ItemsText(items)|)
    ensures RunFrom(data, st, ItemsTokens(items)) ==
      Some(St(st.i + |ItemsText(items)|, if items.NoItems? then 1 else 2, st.top, NoErr))
    decreases items, 2
  {
    hide Next, ReadValue, Text, Tokens, WellFormed, At, Ends, Blank;
    match items
    case NoItems =>
    case FirstItem(w, v) =>
      hide RunFrom;
      AtSplit(data, st.i, w, Text(v));
      FirstValue(data, st, w, v);
      RunValue(data, st, St(st.i + |w|, 2, st.top, NoErr), v);
    case NextItem(init, w, w', v) =>
      hide RunFrom;
      RunMoreItems(data, st, items);
  }

  lemma {:induction false} RunMoreItems(data: string, st: St, items: Items)
    requires items.NextItem? && ItemsOk(items) && st.cur == 1 && st.err == NoErr
    requires At(data, st.i, ItemsText(items)) && Ends(data, st.i + |ItemsText(items)|)
    ensures RunFrom(data, st, ItemsTokens(items.init) + Tokens(items.v)) ==
      Some(St(st.i + |ItemsText(items)|, 2, st.top, NoErr))
    decreases items, 1
  {
    hide *;
    var s := St(st.i + |ItemsText(items.init)|, 2, st.top, NoErr);
    RunInitItems(data, st, items);
    RunNextItem(data, s, items);
    RunThen(data, st, ItemsTokens(items.init), s, Tokens(items.v), St(st.i + |ItemsText(items)|, 2, st.top, NoErr));
  }

  lemma {:induction false} RunInitItems(data: string, st: St, items: Items)
    requires items.NextItem? && ItemsOk(items) && st.cur == 1 && st.err == NoErr
    requires At(data, st.i, ItemsText(items)) && Ends(data, st.i + |ItemsText(items)|)
    ensures RunFrom(data, st, ItemsTokens(items.init)) == Some(St(st.i + |ItemsText(items.init)|, 2, st.top, NoErr))
    decreases items, 0
  {
    hide *;
    NextItemOk(items);
    ItemParts(data, st.i, items);
    EndsBefore(data, st.i + |ItemsText(items.init)|, items.w, ",");
    RunItems(data, st, items.init);
  }

  /** The last item, from the state that the ones before it lead to. */
  lemma {:induction false} RunNextItem(data: string, s: St, items: Items)
    requires items.NextItem? && ItemsOk(items) && s.cur == 2 && s.err == NoErr && s.i >= |ItemsText(items.init)|
    requires var i := s.i - |ItemsText(items.init)|; At(data, i, ItemsText(items)) && Ends(data, i + |ItemsText(items)|)
    ensures RunFrom(data, s, Tokens(items.v)) == Some(s.(i := s.i - |ItemsText(items.init)| + |ItemsText(items)|))
    decreases items, 0
  {
    hide *;
    NextItemOk(items);
    ItemParts(data, s.i - |ItemsText(items.init)|, items);
    NextValue(data, s, items.w, items.w', items.v);
    RunValue(data, s, s.(i := s.i + |items.w| + 1 + |items.w'|), items.v);
  }

  lemma NextItemOk(items: Items)
    requires items.NextItem? && ItemsOk(items)
    ensures !items.init.NoItems? && ItemsOk(items.init) && Blank(items.w) && Blank(items.w') && WellFormed(items.v)
  {
  }

  lemma ItemParts(data: string, i: nat, items: Items)
    requires items.NextItem? && At(data, i, ItemsText(items))
    ensures var a := i + |ItemsText(items.init)|; var b := a + |items.w|; var c := b + 1 + |items.w'|;
      && At(data, i, ItemsText(items.init)) && At(data, a, items.w) && At(data, b, ",") && At(data, b + 1, items.w') &&
        At(data, c, Text(items.v))
      && c + |Text(items.v)| == i + |ItemsText(items)|
  {
    hide At, Text;
    var x := ItemsText(items.init);
    AtSplit(data, i, x + items.w + "," + items.w', Text(items.v));
    AtSplit(data, i, x + items.w + ",", items.w');
    AtSplit(data, i, x + items.w, ",");
    AtSplit(data, i, x, items.w);
  }

  lemma NextValue(data: string, st: St, w: string, w': string, v: Value)
    requires st.cur == 2 && st.err == NoErr && WellFormed(v)
    requires At(data, st.i, w) && Blank(w) && At(data, st.i + |w|, ",") && At(data, st.i + |w| + 1, w') && Blank(w')
    requires At(data, st.i + |w| + 1 + |w'|, Text(v))
    ensures Reaches(data, st, st.(i := st.i + |w| + 1 + |w'|))
  {
    hide ReadValue, Text, WellFormed, SkipWs, After;
    FirstByte(v);
    SkipsSeparator(data, st, w, ',', w', Text(v));
  }

  // ---- objects ----------------------------------------------------------------------------------

  lemma MemberParts(data: string, i: nat, m: Member)
    requires At(data, i, MemberText(m))
    ensures var a := i + |m.w1|; var b := a + |m.key|; var c := b + |m.w2|; var d := c + 1 + |m.w3|;
      && At(data, i, m.w1) && At(data, a, m.key) && At(data, b, m.w2) && At(data, c, ":") && At(data, c + 1, m.w3) &&
        At(data, d, Text(m.v))
      && d + |Text(m.v)| == i + |MemberText(m)|
  {
    hide At, Text;
    AtSplit(data, i, m.w1 + m.key + m.w2 + ":" + m.w3, Text(m.v));
    AtSplit(data, i, m.w1 + m.key + m.w2 + ":", m.w3);
    AtSplit(data, i, m.w1 + m.key + m.w2, ":");
    AtSplit(data, i, m.w1 + m.key, m.w2);
    AtSplit(data, i, m.w1, m.key);
  }

  /** A key where one is due, and the value after it. */
  lemma {:induction false} RunMember(data: string, st: St, i: nat, top: seq<nat>, m: Member)
    requires MemberOk(m) && At(data, i, MemberText(m)) && Ends(data, i + |MemberText(m)|) && st.i <= |data|
    requires i + |m.w1| < |data|
    requires Next(data, st) == ReadString(data, St(i + |m.w1|, 4, top, NoErr))
    ensures RunFrom(data, st, [Token(String, m.key)] + Tokens(m.v)) == Some(St(i + |MemberText(m)|, 5, top, NoErr))
    decreases m
  {
    hide Next, RunFrom, Text, Tokens, WellFormed, At, MemberText;
    MemberParts(data, i, m);
    var a, b := i + |m.w1|, i + |m.w1| + |m.key|;
    var s := St(b, 4, top, NoErr);
    KeyReads(data, St(a, 4, top, NoErr), m.key);
    RunOne(data, st, Token(String, m.key));
    ColonValue(data, s, m.w2, m.w3, m.v);
    RunValue(data, s, St(b + |m.w2| + 1 + |m.w3|, 5, top, NoErr), m.v);
    RunFromCat(data, st, [Token(String, m.key)], Tokens(m.v));
  }

  lemma KeyReads(data: string, st: St, key: string)
    requires StringOk(key) && At(data, st.i, key) && st.i < |data|
    ensures ReadString(data, st) == (st.(i := st.i + |key|), Token(String, key))
  {
    AtFirst(data, st.i, key);
    StringComplete(data, st.i, st.i + 1, key);
  }

  lemma ColonValue(data: string, st: St, w2: string, w3: string, v: Value)
    requires st.cur == 4 && st.err == NoErr && WellFormed(v)
    requires At(data, st.i, w2) && Blank(w2) && At(data, st.i + |w2|, ":") && At(data, st.i + |w2| + 1, w3) && Blank(w3)
    requires At(data, st.i + |w2| + 1 + |w3|, Text(v))
    ensures Reaches(data, st, St(st.i + |w2| + 1 + |w3|, 5, st.top, NoErr))
  {
    hide ReadValue, Text, WellFormed, SkipWs, After;
    FirstByte(v);
    SkipsSeparator(data, st, w2, ':', w3, Text(v));
  }

  lemma {:induction false} RunMembers(data: string, st: St, members: Members)
    requires MembersOk(members) && st.cur == 3 && st.err == NoErr && At(data, st.i, MembersText(members))
    requires Ends(data, st.i + |MembersText(members)|)
    ensures RunFrom(data, st, MembersTokens(members)) ==
      Some(St(st.i + |MembersText(members)|, if members.NoMembers? then 3 else 5, st.top, NoErr))
    decreases members, 2
  {
    hide Next, ReadString, Text, Tokens, WellFormed, At, MemberText, Ends, Blank, StringOk;
    match members
    case NoMembers =>
    case FirstMember(m) =>
      hide RunFrom;
      MemberParts(data, st.i, m);
      FirstKey(data, st, m.w1, m.key);
      RunMember(data, st, st.i, st.top, m);
    case NextMember(init, w, m) =>
      hide RunFrom;
      RunMoreMembers(data, st, members);
      assert MembersTokens(members) == MembersTokens(init) + ([Token(String, m.key)] + Tokens(m.v));
  }

  lemma {:induction false} RunMoreMembers(data: string, st: St, members: Members)
    requires members.NextMember? && MembersOk(members) && st.cur == 3 && st.err == NoErr
    requires At(data, st.i, MembersText(members)) && Ends(data, st.i + |MembersText(members)|)
    ensures RunFrom(data, st, MembersTokens(members.init) + ([Token(String, members.m.key)] + Tokens(members.m.v)))
         == Some(St(st.i + |MembersText(members)|, 5, st.top, NoErr))
    decreases members, 1
  {
    hide *;
    var s := St(st.i + |MembersText(members.init)|, 5, st.top, NoErr);
    RunInitMembers(data, st, members);
    RunNextMember(data, s, members);
    RunThen(data, st, MembersTokens(members.init), s, [Token(String, members.m.key)] + Tokens(members.m.v),
            St(st.i + |MembersText(members)|, 5, st.top, NoErr));
  }

  lemma {:induction false} RunInitMembers(data: string, st: St, members: Members)
    requires members.NextMember? && MembersOk(members) && st.cur == 3 && st.err == NoErr
    requires At(data, st.i, MembersText(members)) && Ends(data, st.i + |MembersText(members)|)
    ensures RunFrom(data, st, MembersTokens(members.init)) ==
      Some(St(st.i + |MembersText(members.init)|, 5, st.top, NoErr))
    decreases members, 0
  {
    hide *;
    NextMemberOk(members);
    MembersParts(data, st.i, members);
    EndsBefore(data, st.i + |MembersText(members.init)|, members.w, ",");
    RunMembers(data, st, members.init);
  }

  lemma {:induction false} RunNextMember(data: string, s: St, members: Members)
    requires members.NextMember? && MembersOk(members) && s.cur == 5 && s.err == NoErr
    requires s.i >= |MembersText(members.init)|
    requires var i := s.i - |MembersText(members.init)|;
      At(data, i, MembersText(members)) && Ends(data, i + |MembersText(members)|)
    ensures RunFrom(data, s, [Token(String, members.m.key)] + Tokens(members.m.v))
         == Some(s.(i := s.i - |MembersText(members.init)| + |MembersText(members)|))
    decreases members, 0
  {
    hide *;
    var m, w := members.m, members.w;
    NextMemberOk(members);
    MembersParts(data, s.i - |MembersText(members.init)|, members);
    MemberParts(data, s.i + |w| + 1, m);
    NextKey(data, s, w, m.w1, m.key);
    RunMember(data, s, s.i + |w| + 1, s.top, m);
  }

  lemma NextMemberOk(members: Members)
    requires members.NextMember? && MembersOk(members)
    ensures !members.init.NoMembers? && MembersOk(members.init) && Blank(members.w) && MemberOk(members.m)
    ensures Blank(members.m.w1) && StringOk(members.m.key)
  {
  }

  lemma MembersParts(data: string, i: nat, members: Members)
    requires members.NextMember? && At(data, i, MembersText(members))
    ensures var a := i + |MembersText(members.init)|; var b := a + |members.w|;
      && At(data, i, MembersText(members.init)) && At(data, a, members.w) && At(data, b, ",") &&
        At(data, b + 1, MemberText(members.m))
      && b + 1 + |MemberText(members.m)| == i + |MembersText(members)|
  {
    hide At, MemberText;
    var x := MembersText(members.init);
    AtSplit(data, i, x + members.w + ",", MemberText(members.m));
    AtSplit(data, i, x + members.w, ",");
    AtSplit(data, i, x, members.w);
  }

  lemma FirstKey(data: string, st: St, w: string, key: string)
    requires st.cur == 3 && st.err == NoErr && StringOk(key) && At(data, st.i, w) && Blank(w)
    requires At(data, st.i + |w|, key)
    ensures st.i <= |data| && st.i + |w| < |data|
    ensures Next(data, st) == ReadString(data, St(st.i + |w|, 4, st.top, NoErr))
  {
    hide ReadString, SkipWs;
    AtFirst(data, st.i + |w|, key);
    SkipsBlank(data, st.i, w);
  }

  lemma NextKey(data: string, st: St, w: string, w1: string, key: string)
    requires st.cur == 5 && st.err == NoErr && StringOk(key)
    requires At(data, st.i, w) && Blank(w) && At(data, st.i + |w|, ",") && At(data, st.i + |w| + 1, w1) && Blank(w1)
    requires At(data, st.i + |w| + 1 + |w1|, key)
    ensures var k := st.i + |w| + 1 + |w1|;
      st.i <= |data| && k < |data| && Next(data, st) == ReadString(data, St(k, 4, st.top, NoErr))
  {
    hide ReadString, SkipWs, After;
    SkipsSeparator(data, st, w, ',', w1, key);
  }

  /** A bracketed text at st1: its parts, and what reading its first byte does. */
  lemma OpenReads(data: string, st: St, st1: St, open: string, body: string, ws: string, close: string)
    requires Reaches(data, st, st1)
    requires (open == "[" && close == "]") || (open == "{" && close == "}")
    requires At(data, st1.i, open + body + ws + close)
    ensures At(data, st1.i + 1, body) && At(data, st1.i + 1 + |body|, ws) && At(data, st1.i + 1 + |body| + |ws|, close)
    ensures Next(data, st) ==
      (St(st1.i + 1, if open == "[" then 1 else 3, if st1.cur != 0 then st1.top + [st1.cur] else st1.top, NoErr),
                               Token(if open == "[" then Array else Object, open))
  {
    hide Next, At;
    AtSplit(data, st1.i, open + body + ws, close);
    AtSplit(data, st1.i, open + body, ws);
    AtSplit(data, st1.i, open, body);
    AtFirst(data, st1.i, open);
    assert data[st1.i..st1.i + 1] == open;
  }

  lemma ArrayEnds(data: string, st: St, ws: string, st1: St)
    requires (st.cur == 1 || st.cur == 2) && st.err == NoErr && At(data, st.i, ws) && Blank(ws)
    requires At(data, st.i + |ws|, "]")
    requires st.top == (if st1.cur != 0 then st1.top + [st1.cur] else st1.top) && (st1.cur == 0 ==> st1.top == [])
    requires st1.err == NoErr
    ensures RunFrom(data, st, [Token(CloseArray, "]")]) == Some(st1.(i := st.i + |ws| + 1))
  {
    hide *;
    Bracket();
    SkipsTo(data, st.i, ws, "]");
    CloseNext(data, st, st.i + |ws|, CloseArray, "]");
    CloseBack(data, st.(i := st.i + |ws|), st1, CloseArray, "]");
    RunOne(data, st, Token(CloseArray, "]"));
  }

  lemma ObjectEnds(data: string, st: St, ws: string, st1: St)
    requires (st.cur == 3 || st.cur == 5) && st.err == NoErr && At(data, st.i, ws) && Blank(ws)
    requires At(data, st.i + |ws|, "}")
    requires st.top == (if st1.cur != 0 then st1.top + [st1.cur] else st1.top) && (st1.cur == 0 ==> st1.top == [])
    requires st1.err == NoErr
    ensures RunFrom(data, st, [Token(CloseObject, "}")]) == Some(st1.(i := st.i + |ws| + 1))
  {
    hide *;
    Bracket();
    SkipsTo(data, st.i, ws, "}");
    CloseNext(data, st, st.i + |ws|, CloseObject, "}");
    CloseBack(data, st.(i := st.i + |ws|), st1, CloseObject, "}");
    RunOne(data, st, Token(CloseObject, "}"));
  }

  lemma Bracket()
    ensures !IsWhitespace("]"[0]) && !IsWhitespace("}"[0])
  {
  }

  /** A closing bracket where one may stand. */
  lemma CloseNext(data: string, st: St, j: nat, kind: Kind, c: string)
    requires st.i <= |data| && st.err == NoErr && SkipWs(data, st.i) == j < |data| && |c| == 1 && data[j] == c[0]
    requires if kind == CloseArray then c == "]" && (st.cur == 1 || st.cur == 2)
      else kind == CloseObject && c == "}" && (st.cur == 3 || st.cur == 5)
    ensures Next(data, st) == Close(data, st.(i := j), kind)
  {
    hide SkipWs, Close, After, ReadValue, ReadString;
  }

  lemma CloseBack(data: string, st: St, st1: St, kind: Kind, c: string)
    requires st.i < |data| && |c| == 1 && data[st.i] == c[0] && st.err == NoErr == st1.err
    requires st.top == (if st1.cur != 0 then st1.top + [st1.cur] else st1.top) && (st1.cur == 0 ==> st1.top == [])
    ensures Close(data, st, kind) == (st1.(i := st.i + 1), Token(kind, c))
  {
    assert data[st.i..st.i + 1] == c;
  }

  // ---- a text at the top level ------------------------------------------------------------------

  /** Every object or array text, after any whitespace and before anything, is tokenized as its tree. */
  lemma {:induction false} TextIsAccepted(data: string, pre: string, w: string, v: Value, rest: string)
    requires WellFormed(v) && !v.Scalar? && Blank(w) && data == pre + w + Text(v) + rest
    ensures RunFrom(data, St(|pre|, 0, [], NoErr), Tokens(v)) == Some(St(|pre| + |w| + |Text(v)|, 0, [], NoErr))
  {
    hide *;
    TextStarts(data, pre, w, v, rest);
    AcceptedAt(data, |pre|, |pre| + |w|, v);
  }

  lemma {:induction false} AcceptedAt(data: string, i: nat, j: nat, v: Value)
    requires WellFormed(v) && !v.Scalar? && At(data, j, Text(v))
    requires Reaches(data, St(i, 0, [], NoErr), St(j, 0, [], NoErr))
    ensures RunFrom(data, St(i, 0, [], NoErr), Tokens(v)) == Some(St(j + |Text(v)|, 0, [], NoErr))
  {
    hide *;
    RunValue(data, St(i, 0, [], NoErr), St(j, 0, [], NoErr), v);
  }

  lemma {:induction false} TextStarts(data: string, pre: string, w: string, v: Value, rest: string)
    requires WellFormed(v) && Blank(w) && data == pre + w + Text(v) + rest
    ensures At(data, |pre| + |w|, Text(v)) && Reaches(data, St(|pre|, 0, [], NoErr), St(|pre| + |w|, 0, [], NoErr))
    ensures SkipWs(data, |pre|) == |pre| + |w|
  {
    hide ReadValue, Text, WellFormed, SkipWs;
    assert data[0..|data|] == data;
    assert At(data, 0, pre + w + Text(v) + rest);
    hide At;
    AtSplit(data, 0, pre + w + Text(v), rest);
    AtSplit(data, 0, pre + w, Text(v));
    AtSplit(data, 0, pre, w);
    FirstByte(v);
    AtFirst(data, |pre| + |w|, Text(v));
    SkipsBlank(data, |pre|, w);
  }

  /** The states between the tokens form an error-free run. */
  lemma {:induction false} StatesOf(data: string, st: St, toks: seq<Token>) returns (sts: seq<St>)
    requires st.i <= |data| && RunFrom(data, st, toks).Some?
    ensures IterRun(data, sts, toks) && sts[0] == st && sts[|toks|] == RunFrom(data, st, toks).value
    decreases |toks|
  {
    if toks == [] {
      sts := [st];
    } else {
      var s := Next(data, st).0;
      if toks[1..] == [] {
        sts := [st, s];
      } else {
        var more := StatesOf(data, s, toks[1..]);
        sts := [st] + more;
        forall k | 0 <= k < |toks|
          ensures sts[k].i <= |data| && Next(data, sts[k]) == (sts[k + 1], toks[k]) && toks[k].kind != Invalid
        {
          if k > 0 {
            assert sts[k] == more[k - 1] && sts[k + 1] == more[k] && toks[k] == toks[1..][k - 1];
          }
        }
      }
    }
  }
}
