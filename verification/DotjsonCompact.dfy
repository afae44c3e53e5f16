/** What the encoder prints: the text of the tree without any space, with the eight short escapes and no others. */
module DotjsonCompact {
  import opened Collections
  import opened DotjsonTable
  import opened DotjsonNode
  import opened DotjsonGrammar
  import opened DotjsonRoundTrip
  import opened DotjsonLexemes
  import opened DotjsonDocument

  // ---- compact trees ------------------------------------------------------------------------------

  /** A character behind a backslash exactly if it has a short escape. */
  predicate CompactChar(c: Char) {
    match c
    case Plain(b) => b !in "\"\\/\n\r\t" && b as int != 8 && b as int != 12
    case Escape(_) => true
    case Unicode(_) => false
  }

  predicate PlainChar(c: Char) { c.Plain? }

  ghost predicate Compact(d: Doc) {
    match d
    case StrDoc(cs) => forall i :: 0 <= i < |cs| ==> CompactChar(cs[i])
    case ListDoc(es) => CompactElements(es)
    case RecordDoc(ms) => CompactMembers(ms)
    case _ => true
  }

  ghost predicate CompactElements(es: Elements) {
    match es
    case NoElements(w) => w == []
    case LastElement(w, d, w') => w == w' == [] && Compact(d)
    case Element(w, d, w', rest) => w == w' == [] && Compact(d) && CompactElements(rest)
  }

  ghost predicate CompactMembers(ms: Members) {
    match ms
    case NoMembers(w) => w == []
    case LastMember(m, w) => w == [] && CompactMember(m)
    case MemberThen(m, w, rest) => w == [] && CompactMember(m) && CompactMembers(rest)
  }

  ghost predicate CompactMember(m: Member) {
    m.w1 == m.w2 == m.w3 == [] && (forall i :: 0 <= i < |m.key| ==> PlainChar(m.key[i])) && Compact(m.d)
  }

  // ---- the tree shows the node ----------------------------------------------------------------------

  /** d spells n, elements in their order and members in the order of their slots. */
  ghost predicate Shows(d: Doc, n: Node)
    requires DocOk(d)
    decreases d, 0
  {
    match n
    case Null => d.NullDoc?
    case False => d.FalseDoc?
    case True => d.TrueDoc?
    case Num(raw) => d.NumDoc? && LexemeText(d.n) == raw
    case Str(s) => d.StrDoc? && CharsMean(d.cs) == s
    case Arr(items) => d.ListDoc? && ShowsItems(d.es, items)
    case Obj(t) => d.RecordDoc? && ShowsSlots(d.ms, t)
  }

  ghost predicate ShowsItems(es: Elements, items: seq<Node>)
    requires ElementsOk(es)
    decreases es, 0
  {
    match es
    case NoElements(_) => items == []
    case LastElement(_, d, _) => |items| == 1 && Shows(d, items[0])
    case Element(_, d, _, rest) => |items| > 1 && Shows(d, items[0]) && ShowsItems(rest, items[1..])
  }

  ghost predicate ShowsSlots(ms: Members, t: Table<Node>)
    requires MembersOk(ms)
    decreases ms, |t|
  {
    if t == [] then ms.NoMembers?
    else if t[0].None? then ShowsSlots(ms, t[1..])
    else
      match ms
      case NoMembers(_) => false
      case LastMember(m, _) => ShowsEntry(m, t[0].value) && forall j :: 1 <= j < |t| ==> t[j].None?
      case MemberThen(m, _, rest) => ShowsEntry(m, t[0].value) && ShowsSlots(rest, t[1..])
  }

  ghost predicate ShowsEntry(m: Member, e: Entry<Node>)
    requires MemberOk(m)
    decreases m, 0
  {
    CharsMean(m.key) == e.key && Shows(m.d, e.val)
  }

  // ---- strings --------------------------------------------------------------------------------------

  function CharOf(c: Byte): Char {
    match EscapeOf(c)
    case None => Plain(c)
    case Some(x) => Escape(x)
  }

  lemma CharOfIs(c: Byte)
    requires c != '\0'
    ensures CharOk(CharOf(c)) && CompactChar(CharOf(c)) && CharText(CharOf(c)) == Escaped(c)
    ensures CharMeans(CharOf(c)) == [c]
  {
  }

  lemma {:induction false} CompactString(s: Bytes) returns (cs: seq<Char>)
    requires NoNul(s)
    ensures CharsOk(cs) && CharsText(cs) == EscapedAll(s) && CharsMean(cs) == s
    ensures forall i :: 0 <= i < |cs| ==> CompactChar(cs[i])
    decreases s
  {
    if s == [] {
      cs := [];
    } else {
      CharOfIs(s[0]);
      var rest := CompactString(s[1..]);
      cs := [CharOf(s[0])] + rest;
      assert cs[1..] == rest && [s[0]] + s[1..] == s;
      hide CharOk, CompactChar, CharText, CharMeans, CharOf, Escaped;
    }
  }

  lemma {:induction false} PlainString(s: Bytes) returns (cs: seq<Char>)
    requires PlainKey(s)
    ensures CharsOk(cs) && CharsText(cs) == s && CharsMean(cs) == s
    ensures forall i :: 0 <= i < |cs| ==> PlainChar(cs[i])
    decreases s
  {
    if s == [] {
      cs := [];
    } else {
      var rest := PlainString(s[1..]);
      cs := [Plain(s[0])] + rest;
      assert cs[1..] == rest && [s[0]] + s[1..] == s;
    }
  }

  // ---- documents ------------------------------------------------------------------------------------

  lemma PrintedNumber(raw: Bytes) returns (n: Lexeme)
    requires NumEnd(raw, 0) == Some(|raw|)
    ensures LexemeOk(n) && LexemeText(n) == raw && CStr(raw) == raw
  {
    n := NumberSound(raw, 0);
    assert raw[0..|raw|] == raw;
    LexemeNoNul(n);
    NoNulIsAll(raw);
  }

  lemma LexemeNoNul(n: Lexeme)
    requires LexemeOk(n)
    ensures NoNul(LexemeText(n))
  {
  }

  lemma {:induction false} NoNulIsAll(s: Bytes)
    requires NoNul(s)
    ensures CStr(s) == s
    decreases s
  {
    if s != [] {
      NoNulIsAll(s[1..]);
      assert [s[0]] + s[1..] == s;
    }
  }

  /** The printed text of every printable node is that of a compact tree that shows it. */
  lemma {:induction false} PrintedDoc(n: Node) returns (d: Doc)
    requires Printable(n)
    ensures DocOk(d) && Compact(d) && Shows(d, n) && DocText(d) == Text(n)
    decreases n, Width(n) + 2
  {
    match n
    case Null => d := NullDoc;
    case False => d := FalseDoc;
    case True => d := TrueDoc;
    case Num(raw) =>
      var l := PrintedNumber(raw);
      d := NumDoc(l);
    case Str(s) =>
      var cs := CompactString(s);
      d := StrDoc(cs);
      Assoc(['\"'], EscapedAll(s), ['\"']);
    case Arr(items) =>
      d := PrintedArray(n);
    case Obj(t) =>
      d := PrintedObject(n);
  }

  lemma {:induction false} PrintedArray(n: Node) returns (d: Doc)
    requires Printable(n) && n.Arr?
    ensures DocOk(d) && Compact(d) && Shows(d, n) && DocText(d) == Text(n)
    decreases n, |n.items| + 1
  {
    if n.items == [] {
      d := ListDoc(NoElements([]));
      assert Text(n) == ['[', ']'];
    } else {
      var es := PrintedItems(n, 0);
      d := ListDoc(es);
      ItemsSplit(n, 0);
      assert n.items[0..] == n.items;
      Assoc(['['], ItemsText(n, 0), [']']);
      hide Printable, ElementsOk, CompactElements, ShowsItems, ElementsText, ItemsText;
    }
  }

  lemma {:induction false} PrintedObject(n: Node) returns (d: Doc)
    requires Printable(n) && n.Obj?
    ensures DocOk(d) && Compact(d) && Shows(d, n) && DocText(d) == Text(n)
    decreases n, |n.table| + 1
  {
    var ms := PrintedSlots(n, 0);
    if ms.Some? {
      d := RecordDoc(ms.value);
      assert [] + MembersText(ms.value) == MembersText(ms.value);
    } else {
      d := RecordDoc(NoMembers([]));
      NoSlots(n.table);
    }
    assert n.table[0..] == n.table;
    Assoc(['{'], FieldsText(n, 0, true), ['}']);
    hide Printable, ShowsSlots, FieldsText;
  }

  lemma {:induction false} NoSlots(t: Table<Node>)
    requires forall j :: 0 <= j < |t| ==> t[j].None?
    ensures ShowsSlots(NoMembers([]), t)
    decreases |t|
  {
    if t != [] {
      NoSlots(t[1..]);
    }
  }

  lemma ItemsEnd(n: Node)
    requires n.Arr?
    ensures ItemsText(n, |n.items|) + [']'] == [']']
  {
  }

  lemma OneElement(d: Doc, items: seq<Node>)
    requires |items| == 1 && DocOk(d) && Compact(d) && Shows(d, items[0])
    ensures var es := LastElement([], d, []);
      ElementsOk(es) && CompactElements(es) && ShowsItems(es, items) && ElementsText(es) == DocText(d) + [']']
  {
    hide DocOk, DocText, Compact, Shows, Framed;
    FramedBare([], DocText(d), [']']);
    assert [] + DocText(d) == DocText(d);
  }

  lemma MoreElements(d: Doc, rest: Elements, items: seq<Node>)
    requires |items| > 1 && DocOk(d) && Compact(d) && Shows(d, items[0])
    requires ElementsOk(rest) && CompactElements(rest) && ShowsItems(rest, items[1..]) && !rest.NoElements?
    ensures var es := Element([], d, [], rest);
      ElementsOk(es) && CompactElements(es) && ShowsItems(es, items)
    ensures ElementsText(Element([], d, [], rest)) == DocText(d) + ([','] + ElementsText(rest))
  {
    var es := Element([], d, [], rest);
    assert ElementsText(es) == Framed([], DocText(d), [], [','] + ElementsText(rest));
    hide DocOk, DocText, Compact, Shows, ElementsText, Framed;
    FramedBare([], DocText(d), [','] + ElementsText(rest));
    assert [] + DocText(d) == DocText(d);
  }

  lemma {:induction false} PrintedItems(n: Node, i: nat) returns (es: Elements)
    requires Printable(n) && n.Arr? && i < |n.items|
    ensures ElementsOk(es) && CompactElements(es) && ShowsItems(es, n.items[i..]) && !es.NoElements?
    ensures ElementsText(es) == Text(n.items[i]) + (ItemsText(n, i + 1) + [']'])
    decreases n, |n.items| - i
  {
    var d := PrintedDoc(n.items[i]);
    hide DocOk, DocText, Compact, Shows, Text, ItemsText, ElementsOk, CompactElements, ShowsItems, ElementsText;
    if i + 1 == |n.items| {
      es := LastElement([], d, []);
      ItemsEnd(n);
      OneElement(d, n.items[i..]);
    } else {
      hide Printable;
      var rest := PrintedItems(n, i + 1);
      es := Element([], d, [], rest);
      ItemsSplit(n, i + 1);
      assert n.items[i..][1..] == n.items[i + 1..];
      MoreElements(d, rest, n.items[i..]);
    }
  }

  lemma PrintedMember(e: Entry<Node>, d: Doc) returns (m: Member)
    requires PlainKey(e.key) && DocOk(d) && Compact(d) && Shows(d, e.val) && DocText(d) == Text(e.val)
    ensures MemberOk(m) && CompactMember(m) && ShowsEntry(m, e) && m.d == d
    ensures FieldText(e) == KeyText(m) + DocText(m.d)
  {
    var cs := PlainString(e.key);
    m := Member([], cs, [], [], d);
    hide DocOk, DocText, Compact, Shows, Text, PlainKey, CharsOk, CharsText;
    assert KeyText(m) == ['\"'] + e.key + ['\"', ':'];
  }

  lemma {:induction false} PrintedSlots(n: Node, i: nat) returns (ms: Option<Members>)
    requires Printable(n) && n.Obj? && i <= |n.table|
    ensures ms.None? ==> forall j :: i <= j < |n.table| ==> n.table[j].None?
    ensures ms.None? ==> FieldsText(n, i, true) == FieldsText(n, i, false) == []
    ensures ms.Some? ==> MembersOk(ms.value) && CompactMembers(ms.value) && ShowsSlots(ms.value, n.table[i..])
    ensures ms.Some? ==> !ms.value.NoMembers? && FieldsText(n, i, true) + ['}'] == MembersText(ms.value)
    ensures ms.Some? ==> FieldsText(n, i, false) + ['}'] == [','] + MembersText(ms.value)
    decreases n, |n.table| - i
  {
    if i == |n.table| {
      ms := None;
    } else {
      var t := n.table[i..];
      assert t[0] == n.table[i] && t[1..] == n.table[i + 1..];
      var rest := PrintedSlots(n, i + 1);
      match n.table[i]
      case None => ms := rest;
      case Some(e) =>
        var d := PrintedDoc(e.val);
        hide DocOk, DocText, Compact, Shows, Text;
        var m := PrintedMember(e, d);
        hide FieldText, KeyText, MemberOk, CompactMember, ShowsEntry;
        FieldsSplit(n, i, true);
        FieldsSplit(n, i, false);
        if rest.None? {
          ms := Some(LastMember(m, []));
          assert FieldsText(n, i + 1, false) + ['}'] == ['}'];
          assert forall j :: 1 <= j < |t| ==> t[j] == n.table[i + j];
        } else {
          ms := Some(MemberThen(m, [], rest.value));
        }
        hide FieldsText, MembersText;
        MembersSplit(ms.value);
    }
  }

  lemma MembersSplit(ms: Members)
    requires !ms.NoMembers? && ms.w == []
    ensures MembersText(ms) ==
      KeyText(ms.m) + DocText(ms.m.d) + (if ms.LastMember? then ['}'] else [','] + MembersText(ms.rest))
  {
    hide KeyText, DocText;
    var k, x := KeyText(ms.m), DocText(ms.m.d);
    if ms.LastMember? {
      FramedBare(k, x, ['}']);
    } else {
      FramedBare(k, x, [','] + MembersText(ms.rest));
    }
  }

  lemma FramedBare(w: Bytes, x: Bytes, rest: Bytes)
    ensures Framed(w, x, [], rest) == w + x + rest
  {
    assert [] + rest == rest;
  }
}
