/** Dotjson texts as trees that keep their spaces and escapes: the decoder accepts exactly these and builds them. */
module DotjsonDocument {
  import opened Collections
  import opened DotjsonBits
  import opened DotjsonTable
  import opened DotjsonNode
  import opened DotjsonGrammar
  import opened DotjsonDecode
  import opened DotjsonRoundTrip
  import opened DotjsonLexemes

  datatype Doc =
    | NullDoc
    | FalseDoc
    | TrueDoc
    | NumDoc(n: Lexeme)
    | StrDoc(cs: seq<Char>)
    | ListDoc(es: Elements)
    | RecordDoc(ms: Members)

  /** Elements with the spaces before and behind them. */
  datatype Elements =
    | NoElements(w: Bytes)
    | LastElement(w: Bytes, d: Doc, w': Bytes)
    | Element(w: Bytes, d: Doc, w': Bytes, rest: Elements)

  datatype Members =
    | NoMembers(w: Bytes)
    | LastMember(m: Member, w: Bytes)
    | MemberThen(m: Member, w: Bytes, rest: Members)

  /** Spaces before the key, before the colon and before the value. */
  datatype Member = Member(w1: Bytes, key: seq<Char>, w2: Bytes, w3: Bytes, d: Doc)

  // ---- well-formed trees --------------------------------------------------------------------------

  predicate DocOk(d: Doc) {
    match d
    case NumDoc(n) => LexemeOk(n)
    case StrDoc(cs) => CharsOk(cs)
    case ListDoc(es) => ElementsOk(es)
    case RecordDoc(ms) => MembersOk(ms)
    case _ => true
  }

  predicate ElementsOk(es: Elements) {
    match es
    case NoElements(w) => Spaces(w)
    case LastElement(w, d, w') => Spaces(w) && DocOk(d) && Spaces(w')
    case Element(w, d, w', rest) => Spaces(w) && DocOk(d) && Spaces(w') && !rest.NoElements? && ElementsOk(rest)
  }

  predicate MembersOk(ms: Members) {
    match ms
    case NoMembers(w) => Spaces(w)
    case LastMember(m, w) => MemberOk(m) && Spaces(w)
    case MemberThen(m, w, rest) => MemberOk(m) && Spaces(w) && !rest.NoMembers? && MembersOk(rest)
  }

  predicate MemberOk(m: Member) {
    Spaces(m.w1) && CharsOk(m.key) && Spaces(m.w2) && Spaces(m.w3) && DocOk(m.d)
  }

  // ---- their texts --------------------------------------------------------------------------------

  function DocText(d: Doc): Bytes {
    match d
    case NullDoc => "null"
    case FalseDoc => "false"
    case TrueDoc => "true"
    case NumDoc(n) => LexemeText(n)
    case StrDoc(cs) => Quoted(cs)
    case ListDoc(es) => ['['] + ElementsText(es)
    case RecordDoc(ms) => ['{'] + MembersText(ms)
  }

  function Quoted(cs: seq<Char>): Bytes {
    ['\"'] + (CharsText(cs) + ['\"'])
  }

  /** x behind w, and rest behind w'. */
  function Framed(w: Bytes, x: Bytes, w': Bytes, rest: Bytes): Bytes {
    w + (x + (w' + rest))
  }

  function ElementsText(es: Elements): Bytes {
    match es
    case NoElements(w) => w + [']']
    case LastElement(w, d, w') => Framed(w, DocText(d), w', [']'])
    case Element(w, d, w', rest) => Framed(w, DocText(d), w', [','] + ElementsText(rest))
  }

  function MembersText(ms: Members): Bytes {
    match ms
    case NoMembers(w) => w + ['}']
    case LastMember(m, w) => Framed(KeyText(m), DocText(m.d), w, ['}'])
    case MemberThen(m, w, rest) => Framed(KeyText(m), DocText(m.d), w, [','] + MembersText(rest))
  }

  /** A member up to its value. */
  function KeyText(m: Member): Bytes {
    Framed(m.w1, Quoted(m.key), m.w2, [':'] + m.w3)
  }

  // ---- the nodes that they stand for --------------------------------------------------------------

  function NodeOf(d: Doc): Node
    requires DocOk(d)
  {
    match d
    case NullDoc => Null
    case FalseDoc => False
    case TrueDoc => True
    case NumDoc(n) => Num(LexemeText(n))
    case StrDoc(cs) => Str(CharsMean(cs))
    case ListDoc(es) => Arr(Nodes(es))
    case RecordDoc(ms) => if ms.NoMembers? then Obj(Blank(1)) else Obj(Inserted([], ms))
  }

  function Nodes(es: Elements): seq<Node>
    requires ElementsOk(es)
  {
    match es
    case NoElements(_) => []
    case LastElement(_, d, _) => [NodeOf(d)]
    case Element(_, d, _, rest) => [NodeOf(d)] + Nodes(rest)
  }

  /** The members added one by one, in the order in which they are written. */
  function Inserted(t: Table<Node>, ms: Members): Table<Node>
    requires MembersOk(ms)
    decreases ms
  {
    match ms
    case NoMembers(_) => t
    case LastMember(m, _) => Add(t, EntryOf(m))
    case MemberThen(m, _, rest) => Inserted(Add(t, EntryOf(m)), rest)
  }

  function EntryOf(m: Member): Entry<Node>
    requires MemberOk(m)
  {
    Entry(Hash(CharsMean(m.key)), CharsMean(m.key), NodeOf(m.d))
  }

  // ---- parts of texts -----------------------------------------------------------------------------

  lemma FramedParts(s: Bytes, p: nat, w: Bytes, x: Bytes, w': Bytes, rest: Bytes)
    ensures var a := p + |w|; var b := a + |x|; var e := b + |w'|;
      && (Spells(s, p, Framed(w, x, w', rest)) <==>
          Spells(s, p, w) && Spells(s, a, x) && Spells(s, b, w') && Spells(s, e, rest))
      && p + |Framed(w, x, w', rest)| == e + |rest|
  {
    hide Spells;
    SpellsBoth(s, p, w, x + (w' + rest));
    SpellsBoth(s, p + |w|, x, w' + rest);
    SpellsBoth(s, p + |w| + |x|, w', rest);
  }

  lemma MarkParts(s: Bytes, p: nat, c: Byte, rest: Bytes)
    ensures Spells(s, p, [c] + rest) <==> p < |s| && s[p] == c && Spells(s, p + 1, rest)
  {
    hide Spells;
    SpellsByte(s, p, c);
    SpellsBoth(s, p, [c], rest);
  }

  /** No value starts with a space or a closing mark. */
  lemma DocHead(d: Doc)
    requires DocOk(d)
    ensures DocText(d) != [] && !Space(DocText(d)[0]) && DocText(d)[0] != ']' && DocText(d)[0] != '}'
  {
    if d.NumDoc? {
      LexemeHead(d.n);
    }
  }

  lemma LexemeHead(n: Lexeme)
    requires LexemeOk(n)
    ensures LexemeText(n) != [] && !Space(LexemeText(n)[0]) && LexemeText(n)[0] != ']' && LexemeText(n)[0] != '}'
  {
    assert LexemeText(n)[0] == if n.sign == [] then n.whole[0] else n.sign[0];
  }

  lemma HeadAt(s: Bytes, p: nat, d: Doc)
    requires DocOk(d) && Spells(s, p, DocText(d))
    ensures p < |s| && !Space(At(s, p)) && At(s, p) != ']' && At(s, p) != '}'
  {
    hide DocOk, DocText;
    DocHead(d);
    SpellsAt(s, p, DocText(d), 0);
  }

  /** Spaces and then a mark: no number goes on there, and skipping gets to the mark. */
  lemma MarkBehind(s: Bytes, p: nat, w: Bytes, c: Byte)
    requires Spaces(w) && Spells(s, p, w) && At(s, p + |w|) == c && (c == ',' || c == ']' || c == '}' || c == ':')
    ensures Stops(At(s, p)) && Skip(s, p) == p + |w|
  {
    if w != [] {
      SpellsAt(s, p, w, 0);
    }
    hide Spells, Skip;
    SkipsSpaces(s, p, w);
  }

  lemma SpelledPart(s: Bytes, p: nat, w: Bytes)
    requires Spells(s, p, w)
    ensures p + |w| <= |s| && s[p..p + |w|] == w
  {
  }

  // ---- every such text is decoded -----------------------------------------------------------------

  lemma QuotedComplete(s: Bytes, p: nat, cs: seq<Char>)
    requires CharsOk(cs) && Spells(s, p, Quoted(cs))
    ensures p < |s| && At(s, p) == '\"' && Unescape(s, p + 1, []) == Ok(p + |Quoted(cs)|, CharsMean(cs))
  {
    hide Spells, CharsText, CharsMean, Unescape;
    MarkParts(s, p, '\"', CharsText(cs) + ['\"']);
    StringComplete(s, p + 1, cs, []);
    NoneLeft(CharsMean(cs));
  }

  lemma {:induction false} NodeComplete(s: Bytes, p: nat, d: Doc)
    requires DocOk(d) && Spells(s, p, DocText(d)) && (d.NumDoc? ==> Stops(At(s, p + |DocText(d)|)))
    ensures DecodeNode(s, p) == Ok(p + |DocText(d)|, NodeOf(d))
    decreases d, 0
  {
    hide Spells, DecodeNode, DecodeItems, DecodeFields, Unescape, Quoted, LexemeText, ElementsText, MembersText, Space;
    hide LexemeOk, CharsOk, CharsMean, ElementsOk, MembersOk, Nodes, Inserted;
    HeadAt(s, p, d);
    match d
    case NullDoc => ScalarNode(s, p);
    case FalseDoc => ScalarNode(s, p);
    case TrueDoc => ScalarNode(s, p);
    case NumDoc(n) => NumberDecodes(s, p, n);
    case StrDoc(cs) =>
      QuotedComplete(s, p, cs);
      StringAt(s, p, p + |Quoted(cs)|, CharsMean(cs));
    case ListDoc(es) =>
      MarkParts(s, p, '[', ElementsText(es));
      ItemsComplete(s, p + 1, [], es);
      ArrayNode(s, p);
      NoneLeft(Nodes(es));
    case RecordDoc(ms) =>
      MarkParts(s, p, '{', MembersText(ms));
      FieldsComplete(s, p + 1, [], ms);
      ObjectNode(s, p);
  }

  lemma NumberDecodes(s: Bytes, p: nat, n: Lexeme)
    requires LexemeOk(n) && Spells(s, p, LexemeText(n)) && Stops(At(s, p + |LexemeText(n)|))
    ensures DecodeNode(s, p) == Ok(p + |LexemeText(n)|, Num(LexemeText(n)))
  {
    hide *;
    NumberComplete(s, p, n);
    SpelledPart(s, p, LexemeText(n));
    NumberAt(s, p, p + |LexemeText(n)|);
  }

  lemma {:induction false} ItemsComplete(s: Bytes, p: nat, items: seq<Node>, es: Elements)
    requires ElementsOk(es) && Spells(s, p, ElementsText(es)) && (es.NoElements? ==> items == [])
    ensures DecodeItems(s, p, items) == Ok(p + |ElementsText(es)|, Arr(items + Nodes(es)))
    decreases es, 0
  {
    hide Spells, DecodeItems, DocText, DocOk, NodeOf, Framed, Spaces;
    match es
    case NoElements(w) =>
      NoElementsComplete(s, p, w);
      NoneRight(items);
    case LastElement(w, d, w') =>
      FramedParts(s, p, w, DocText(d), w', [']']);
      SpellsByte(s, p + |w| + |DocText(d)| + |w'|, ']');
      ElementComplete(s, p, items, w, d, w', ']');
    case Element(w, d, w', rest) =>
      var e := p + |w| + |DocText(d)| + |w'|;
      FramedParts(s, p, w, DocText(d), w', [','] + ElementsText(rest));
      MarkParts(s, e, ',', ElementsText(rest));
      ElementComplete(s, p, items, w, d, w', ',');
      ItemsComplete(s, e + 1, items + [NodeOf(d)], rest);
      Assoc(items, [NodeOf(d)], Nodes(rest));
  }

  lemma NoElementsComplete(s: Bytes, p: nat, w: Bytes)
    requires Spaces(w) && Spells(s, p, w + [']'])
    ensures DecodeItems(s, p, []) == Ok(p + |w| + 1, Arr([]))
  {
    hide Spells, DecodeItems, Spaces, DecodeNode;
    SpellsBoth(s, p, w, [']']);
    SpellsByte(s, p + |w|, ']');
    SkipsSpaces(s, p, w);
    ItemsUnfold(s, p, []);
  }

  /** An element and the mark behind it. */
  lemma {:induction false} ElementComplete(s: Bytes, p: nat, items: seq<Node>, w: Bytes, d: Doc, w': Bytes, c: Byte)
    requires Spaces(w) && DocOk(d) && Spaces(w') && (c == ',' || c == ']')
    requires var a := p + |w|; var b := a + |DocText(d)|; var e := b + |w'|;
      Spells(s, p, w) && Spells(s, a, DocText(d)) && Spells(s, b, w') && e < |s| && s[e] == c
    ensures var e := p + |w| + |DocText(d)| + |w'|;
      DecodeItems(s, p, items) ==
        if c == ',' then DecodeItems(s, e + 1, items + [NodeOf(d)]) else Ok(e + 1, Arr(items + [NodeOf(d)]))
    decreases d, 1
  {
    hide Spells, DecodeItems, DocText, DocOk, NodeOf, Spaces, DecodeNode, Skip, Stops, AfterItem, Space;
    var a := p + |w|;
    var b := a + |DocText(d)|;
    HeadAt(s, a, d);
    SkipsSpaces(s, p, w);
    MarkBehind(s, b, w', c);
    NodeComplete(s, a, d);
    ItemsUnfold(s, p, items);
    AfterUnfold(s, b, items, NodeOf(d));
  }

  lemma {:induction false} FieldsComplete(s: Bytes, p: nat, t: Table<Node>, ms: Members)
    requires MembersOk(ms) && Spells(s, p, MembersText(ms)) && (ms.NoMembers? ==> t == [])
    ensures DecodeFields(s, p, t) ==
      Ok(p + |MembersText(ms)|, if ms.NoMembers? then Obj(Blank(1)) else Obj(Inserted(t, ms)))
    decreases ms, 0
  {
    hide Spells, DecodeFields, DocText, MemberOk, KeyText, EntryOf, Framed, Spaces, Add;
    match ms
    case NoMembers(w) => NoMembersComplete(s, p, w);
    case LastMember(m, w) =>
      FramedParts(s, p, KeyText(m), DocText(m.d), w, ['}']);
      SpellsByte(s, p + |KeyText(m)| + |DocText(m.d)| + |w|, '}');
      MemberComplete(s, p, t, m, w, '}');
    case MemberThen(m, w, rest) =>
      var e := p + |KeyText(m)| + |DocText(m.d)| + |w|;
      FramedParts(s, p, KeyText(m), DocText(m.d), w, [','] + MembersText(rest));
      MarkParts(s, e, ',', MembersText(rest));
      MemberComplete(s, p, t, m, w, ',');
      FieldsComplete(s, e + 1, Add(t, EntryOf(m)), rest);
  }

  lemma NoMembersComplete(s: Bytes, p: nat, w: Bytes)
    requires Spaces(w) && Spells(s, p, w + ['}'])
    ensures DecodeFields(s, p, []) == Ok(p + |w| + 1, Obj(Blank(1)))
  {
    hide Spells, DecodeFields, Spaces, ReadString, AfterKey;
    SpellsBoth(s, p, w, ['}']);
    SpellsByte(s, p + |w|, '}');
    SkipsSpaces(s, p, w);
    FieldsUnfold(s, p, []);
  }

  /** A key as written, up to the byte where its value starts. */
  lemma KeyComplete(s: Bytes, p: nat, m: Member)
    requires MemberOk(m) && Spells(s, p, KeyText(m)) && !Space(At(s, p + |KeyText(m)|))
    ensures var q := p + |m.w1|; var k := q + |Quoted(m.key)|; var c := k + |m.w2|;
      && Skip(s, p) == q && At(s, q) == '\"' && ReadString(s, q) == Ok(k, CharsMean(m.key))
      && Skip(s, k) == c && At(s, c) == ':' && Skip(s, c + 1) == p + |KeyText(m)|
  {
    hide Spells, DocOk, Quoted, Framed, Spaces, Skip, Unescape, CharsMean, CharsOk;
    var q := p + |m.w1|;
    var k := q + |Quoted(m.key)|;
    var c := k + |m.w2|;
    FramedParts(s, p, m.w1, Quoted(m.key), m.w2, [':'] + m.w3);
    MarkParts(s, c, ':', m.w3);
    QuotedComplete(s, q, m.key);
    SkipsSpaces(s, p, m.w1);
    SkipsSpaces(s, k, m.w2);
    SkipsSpaces(s, c + 1, m.w3);
  }

  /** A member and the mark behind it. */
  lemma {:induction false} MemberComplete(s: Bytes, p: nat, t: Table<Node>, m: Member, w: Bytes, c: Byte)
    requires MemberOk(m) && Spaces(w) && (c == ',' || c == '}')
    requires var a := p + |KeyText(m)|; var b := a + |DocText(m.d)|; var e := b + |w|;
      Spells(s, p, KeyText(m)) && Spells(s, a, DocText(m.d)) && Spells(s, b, w) && e < |s| && s[e] == c
    ensures var e := p + |KeyText(m)| + |DocText(m.d)| + |w|; var u := Add(t, EntryOf(m));
      DecodeFields(s, p, t) == if c == ',' then DecodeFields(s, e + 1, u) else Ok(e + 1, Obj(u))
    decreases m, 0
  {
    hide Spells, DecodeFields, DocText, DocOk, KeyText, NodeOf, Spaces, DecodeNode, Skip, Stops, Space, Quoted;
    hide CharsMean, CharsOk, ReadString, Add, Hash;
    var a := p + |KeyText(m)|;
    var b := a + |DocText(m.d)|;
    HeadAt(s, a, m.d);
    KeyComplete(s, p, m);
    MarkBehind(s, b, w, c);
    NodeComplete(s, a, m.d);
    FieldsUnfold(s, p, t);
  }

  // ---- and every text that is decoded is one ------------------------------------------------------

  lemma NodeUnfold(s: Bytes, p: nat)
    requires !Space(At(s, p))
    ensures var c := At(s, p);
      DecodeNode(s, p) ==
        if c == '{' then DecodeFields(s, p + 1, [])
        else if c == '[' then DecodeItems(s, p + 1, [])
        else if c == '\"' then
          match Unescape(s, p + 1, []) case Fail => Fail case Ok(q, t) => Ok(q, Str(t))
        else if c == 'n' then Word(s, p, NULL_TEXT, Null)
        else if c == 'f' then Word(s, p, FALSE_TEXT, False)
        else if c == 't' then Word(s, p, TRUE_TEXT, True)
        else if Digit(c) || c == '+' || c == '-' then
          match NumEnd(s, p) case None => Fail case Some(q) => Ok(q, Num(s[p..q]))
        else Fail
  {
    hide DecodeFields, DecodeItems, Unescape, Word, NumEnd;
    NoSkip(s, p);
  }

  /** d is written at p and is what the decoder reads there. */
  ghost predicate ReadAs(s: Bytes, p: nat, d: Doc) {
    DocOk(d) && Spells(s, p, DocText(d)) && DecodeNode(s, p) == Ok(p + |DocText(d)|, NodeOf(d))
  }

  lemma {:induction false} NodeSound(s: Bytes, p: nat) returns (d: Doc)
    requires p <= |s| && !Space(At(s, p)) && DecodeNode(s, p).Ok?
    ensures ReadAs(s, p, d)
    decreases |s| - p, 0
  {
    hide *;
    NodeUnfold(s, p);
    if At(s, p) == '{' {
      RecordAt(s, p);
      var ms := FieldsSound(s, p + 1, []);
      d := RecordDoc(ms);
      RecordSound(s, p, ms);
    } else if At(s, p) == '[' {
      ListAt(s, p);
      var es := ItemsSound(s, p + 1, []);
      d := ListDoc(es);
      ListSound(s, p, es);
    } else {
      d := ScalarSound(s, p);
    }
  }

  lemma RecordAt(s: Bytes, p: nat)
    requires At(s, p) == '{'
    ensures p < |s| && Sound<Node>([])
  {
    NoneHolds<Node>();
  }

  lemma ListAt(s: Bytes, p: nat)
    requires At(s, p) == '['
    ensures p < |s|
  {
  }

  lemma RecordSound(s: Bytes, p: nat, ms: Members)
    requires At(s, p) == '{' && MembersOk(ms) && Spells(s, p + 1, MembersText(ms))
    ensures ReadAs(s, p, RecordDoc(ms))
  {
    hide Spells, DecodeNode, MembersText, MembersOk;
    MarkParts(s, p, '{', MembersText(ms));
    NodeComplete(s, p, RecordDoc(ms));
  }

  lemma ListSound(s: Bytes, p: nat, es: Elements)
    requires At(s, p) == '[' && ElementsOk(es) && Spells(s, p + 1, ElementsText(es))
    ensures ReadAs(s, p, ListDoc(es))
  {
    hide Spells, DecodeNode, ElementsText, ElementsOk;
    MarkParts(s, p, '[', ElementsText(es));
    NodeComplete(s, p, ListDoc(es));
  }

  lemma ScalarSound(s: Bytes, p: nat) returns (d: Doc)
    requires p <= |s| && !Space(At(s, p)) && DecodeNode(s, p).Ok? && At(s, p) != '{' && At(s, p) != '['
    ensures ReadAs(s, p, d)
  {
    hide *;
    NodeUnfold(s, p);
    var c := At(s, p);
    if c == '\"' {
      d := StrSound(s, p);
    } else if c == 'n' || c == 'f' || c == 't' {
      d := WordSound(s, p);
    } else {
      d := NumSound(s, p);
    }
  }

  lemma StrSound(s: Bytes, p: nat) returns (d: Doc)
    requires At(s, p) == '\"' && Unescape(s, p + 1, []).Ok?
    ensures ReadAs(s, p, d)
  {
    hide Spells, DecodeNode, Unescape, CharsText, CharsOk;
    var cs := StringSound(s, p + 1, []);
    d := StrDoc(cs);
    MarkParts(s, p, '\"', CharsText(cs) + ['\"']);
    NodeComplete(s, p, d);
  }

  lemma WordSound(s: Bytes, p: nat) returns (d: Doc)
    requires !Space(At(s, p)) && DecodeNode(s, p).Ok? && (At(s, p) == 'n' || At(s, p) == 'f' || At(s, p) == 't')
    ensures ReadAs(s, p, d)
  {
    NodeUnfold(s, p);
    hide Spells, DecodeNode, Space;
    var c := At(s, p);
    d := if c == 'n' then NullDoc else if c == 'f' then FalseDoc else TrueDoc;
    NodeComplete(s, p, d);
  }

  lemma NumSound(s: Bytes, p: nat) returns (d: Doc)
    requires p <= |s| && NumEnd(s, p).Some? && DecodeNode(s, p) == Ok(NumEnd(s, p).value, Num(s[p..NumEnd(s, p).value]))
    ensures ReadAs(s, p, d)
  {
    hide Spells, DecodeNode, NumEnd, LexemeText, LexemeOk;
    var n := NumberSound(s, p);
    d := NumDoc(n);
    SpelledPart(s, p, LexemeText(n));
  }

  lemma {:induction false} ItemsSound(s: Bytes, p: nat, items: seq<Node>) returns (es: Elements)
    requires p <= |s| && DecodeItems(s, p, items).Ok?
    ensures ElementsOk(es) && Spells(s, p, ElementsText(es)) && (items != [] ==> !es.NoElements?)
    decreases |s| - p, 1
  {
    ItemsUnfold(s, p, items);
    hide Spells, DecodeNode, DecodeItems, DocText, DocOk, NodeOf, Framed, Spaces, Space, AfterItem;
    var w := SkippedSpaces(s, p);
    var a := p + |w|;
    if At(s, a) == ']' {
      es := NoElements(w);
      SpellsByte(s, a, ']');
      SpellsBoth(s, p, w, [']']);
    } else {
      var d := NodeSound(s, a);
      SpelledPart(s, a, DocText(d));
      var b := a + |DocText(d)|;
      var w' := SkippedSpaces(s, b);
      var e := b + |w'|;
      AfterUnfold(s, b, items, NodeOf(d));
      if At(s, e) == ',' {
        var rest := ItemsSound(s, e + 1, items + [NodeOf(d)]);
        es := Element(w, d, w', rest);
        MarkParts(s, e, ',', ElementsText(rest));
        FramedParts(s, p, w, DocText(d), w', [','] + ElementsText(rest));
      } else {
        es := LastElement(w, d, w');
        SpellsByte(s, e, ']');
        FramedParts(s, p, w, DocText(d), w', [']']);
      }
    }
  }

  /** A key that was read, as it is written. */
  lemma KeySound(s: Bytes, p: nat, w1: Bytes, k: nat, key: Bytes) returns (cs: seq<Char>)
    requires p <= |s| && Spaces(w1) && Spells(s, p, w1) && ReadString(s, p + |w1|) == Ok(k, key)
    ensures CharsOk(cs) && Spells(s, p + |w1|, Quoted(cs)) && k == p + |w1| + |Quoted(cs)| && key == CharsMean(cs)
  {
    hide Spells, Unescape, CharsText, CharsMean, CharsOk;
    var q := p + |w1|;
    cs := StringSound(s, q + 1, []);
    MarkParts(s, q, '\"', CharsText(cs) + ['\"']);
    QuotedComplete(s, q, cs);
  }

  lemma {:induction false} FieldsSound(s: Bytes, p: nat, t: Table<Node>) returns (ms: Members)
    requires p <= |s| && Sound(t) && DecodeFields(s, p, t).Ok?
    ensures MembersOk(ms) && Spells(s, p, MembersText(ms)) && (t != [] ==> !ms.NoMembers?)
    decreases |s| - p, 3
  {
    hide *;
    FieldsUnfold(s, p, t);
    var w1 := SkippedSpaces(s, p);
    if At(s, p + |w1|) == '}' {
      ms := NoMembers(w1);
      NoMembersSound(s, p, w1);
    } else {
      var k, key := ReadString(s, p + |w1|).p, ReadString(s, p + |w1|).v;
      var cs := KeySound(s, p, w1, k, key);
      var m := KeyedSound(s, p, t, w1, cs);
      ms := MemberSound(s, p, t, m);
    }
  }

  lemma NoMembersSound(s: Bytes, p: nat, w: Bytes)
    requires Spaces(w) && Spells(s, p, w) && At(s, p + |w|) == '}'
    ensures MembersOk(NoMembers(w)) && Spells(s, p, MembersText(NoMembers(w)))
  {
    hide Spells, Spaces;
    SpellsByte(s, p + |w|, '}');
    SpellsBoth(s, p, w, ['}']);
  }

  /** Behind a key, the colon and the value. */
  lemma {:induction false} KeyedSound(s: Bytes, p: nat, t: Table<Node>, w1: Bytes, cs: seq<Char>) returns (m: Member)
    requires Spaces(w1) && CharsOk(cs) && Spells(s, p, w1) && Spells(s, p + |w1|, Quoted(cs))
    requires AfterKey(s, p + |w1| + |Quoted(cs)|, t, CharsMean(cs)).Ok?
    ensures MemberOk(m) && Spells(s, p, KeyText(m)) && Spells(s, p + |KeyText(m)|, DocText(m.d))
    ensures AfterValue(s, p + |KeyText(m)| + |DocText(m.d)|, t, CharsMean(m.key), NodeOf(m.d)).Ok?
    decreases |s| - p, 2
  {
    hide Spells, AfterValue, DocText, DocOk, NodeOf, Framed, Spaces, Space, Quoted, CharsMean, CharsOk, DecodeNode;
    var k := p + |w1| + |Quoted(cs)|;
    SpelledPart(s, p + |w1|, Quoted(cs));
    var w2 := SkippedSpaces(s, k);
    var c := k + |w2|;
    var w3 := SkippedSpaces(s, c + 1);
    var d := NodeSound(s, c + 1 + |w3|);
    m := Member(w1, cs, w2, w3, d);
    MarkParts(s, c, ':', w3);
    FramedParts(s, p, w1, Quoted(cs), w2, [':'] + w3);
  }

  lemma {:induction false} MemberSound(s: Bytes, p: nat, t: Table<Node>, m: Member) returns (ms: Members)
    requires MemberOk(m) && Spells(s, p, KeyText(m)) && Spells(s, p + |KeyText(m)|, DocText(m.d)) && Sound(t)
    requires AfterValue(s, p + |KeyText(m)| + |DocText(m.d)|, t, CharsMean(m.key), NodeOf(m.d)).Ok?
    ensures MembersOk(ms) && Spells(s, p, MembersText(ms)) && !ms.NoMembers?
    decreases |s| - p, 2
  {
    hide Spells, AfterValue, DocText, MemberOk, KeyText, NodeOf, EntryOf, Framed, Spaces, Space, Add, Sound, CharsMean;
    hide DecodeFields;
    var b := p + |KeyText(m)| + |DocText(m.d)|;
    SpelledPart(s, p + |KeyText(m)|, DocText(m.d));
    var w := SkippedSpaces(s, b);
    var e := b + |w|;
    ValueUnfold(s, b, t, m);
    if At(s, e) == ',' {
      EntryAddKeeps(t, m);
      var rest := FieldsSound(s, e + 1, Add(t, EntryOf(m)));
      ms := MemberThen(m, w, rest);
      MarkParts(s, e, ',', MembersText(rest));
      FramedParts(s, p, KeyText(m), DocText(m.d), w, [','] + MembersText(rest));
    } else {
      ms := LastMember(m, w);
      SpellsByte(s, e, '}');
      FramedParts(s, p, KeyText(m), DocText(m.d), w, ['}']);
    }
  }

  lemma ValueUnfold(s: Bytes, b: nat, t: Table<Node>, m: Member)
    requires MemberOk(m) && AfterValue(s, b, t, CharsMean(m.key), NodeOf(m.d)).Ok?
    ensures var c := At(s, Skip(s, b));
      c == '}' || (c == ',' && DecodeFields(s, Skip(s, b) + 1, Add(t, EntryOf(m))).Ok?)
  {
    hide DecodeFields, CharsMean, NodeOf, Add, Hash, Skip;
  }

  lemma EntryAddKeeps(t: Table<Node>, m: Member)
    requires MemberOk(m) && Sound(t)
    ensures Sound(Add(t, EntryOf(m))) && Add(t, EntryOf(m)) != []
  {
    hide Sound, Add, Hash, CharsMean, NodeOf;
    AddKeeps(t, EntryOf(m));
  }

  // ---- exactly ------------------------------------------------------------------------------------

  /** Between p and q stand spaces and the text of an object. */
  ghost predicate IsText(s: Bytes, p: nat, w: Bytes, ms: Members, q: nat) {
    && Spaces(w) && MembersOk(ms) && Spells(s, p, w + DocText(RecordDoc(ms)))
    && q == p + |w| + |DocText(RecordDoc(ms))|
  }

  /** The text that is there, and the node that it stands for. */
  ghost predicate TextOf(s: Bytes, p: nat, w: Bytes, ms: Members, q: nat, v: Node) {
    IsText(s, p, w, ms, q) && v == NodeOf(RecordDoc(ms))
  }

  /** What is decoded is the text of an object with any spaces and escapes, and the result is what the text says. */
  lemma DecodedExactly(s: Bytes, p: nat, q: nat, v: Node)
    requires p <= |s|
    ensures DecodeObjectText(s, p) == Ok(q, v) <==>
      exists w, ms :: TextOf(s, p, w, ms, q, v)
  {
    hide DecodeObjectText, IsText, NodeOf, MembersOk, DocText;
    if DecodeObjectText(s, p) == Ok(q, v) {
      var w, ms := TextSound(s, p);
      TextComplete(s, p, w, ms, p + |w| + |DocText(RecordDoc(ms))|);
      assert TextOf(s, p, w, ms, q, v);
    }
    if w, ms :| TextOf(s, p, w, ms, q, v) {
      TextComplete(s, p, w, ms, q);
    }
  }

  lemma TextComplete(s: Bytes, p: nat, w: Bytes, ms: Members, q: nat)
    requires IsText(s, p, w, ms, q)
    ensures MembersOk(ms) && DecodeObjectText(s, p) == Ok(q, NodeOf(RecordDoc(ms)))
  {
    hide Spells, DecodeFields, MembersText, MembersOk, Spaces, Skip;
    SpellsBoth(s, p, w, DocText(RecordDoc(ms)));
    MarkParts(s, p + |w|, '{', MembersText(ms));
    SkipsSpaces(s, p, w);
    FieldsComplete(s, p + |w| + 1, [], ms);
  }

  lemma TextSound(s: Bytes, p: nat) returns (w: Bytes, ms: Members)
    requires p <= |s| && DecodeObjectText(s, p).Ok?
    ensures IsText(s, p, w, ms, p + |w| + |DocText(RecordDoc(ms))|)
  {
    hide Spells, DecodeFields, MembersText, MembersOk, Spaces, Sound;
    w := SkippedSpaces(s, p);
    NoneHolds<Node>();
    ms := FieldsSound(s, p + |w| + 1, []);
    MarkParts(s, p + |w|, '{', MembersText(ms));
    SpellsBoth(s, p, w, DocText(RecordDoc(ms)));
  }

  // ---- what a text means --------------------------------------------------------------------------

  function KeyOf(m: Member): Bytes
    requires MemberOk(m)
  {
    CStr(CharsMean(m.key))
  }

  function KeysOf(ms: Members): set<Bytes>
    requires MembersOk(ms)
  {
    match ms
    case NoMembers(_) => {}
    case LastMember(m, _) => {KeyOf(m)}
    case MemberThen(m, _, rest) => {KeyOf(m)} + KeysOf(rest)
  }

  /** No object, at any depth, has a key twice. */
  predicate Distinct(d: Doc)
    requires DocOk(d)
  {
    match d
    case ListDoc(es) => ElementsDistinct(es)
    case RecordDoc(ms) => MembersDistinct(ms)
    case _ => true
  }

  predicate ElementsDistinct(es: Elements)
    requires ElementsOk(es)
  {
    match es
    case NoElements(_) => true
    case LastElement(_, d, _) => Distinct(d)
    case Element(_, d, _, rest) => Distinct(d) && ElementsDistinct(rest)
  }

  predicate MembersDistinct(ms: Members)
    requires MembersOk(ms)
  {
    match ms
    case NoMembers(_) => true
    case LastMember(m, _) => ValueDistinct(m)
    case MemberThen(m, _, rest) => ValueDistinct(m) && KeyOf(m) !in KeysOf(rest) && MembersDistinct(rest)
  }

  predicate ValueDistinct(m: Member)
    requires MemberOk(m)
  {
    Distinct(m.d)
  }

  function DocMeaning(d: Doc): Value
    requires DocOk(d)
  {
    match d
    case NullDoc => VNull
    case FalseDoc => VFalse
    case TrueDoc => VTrue
    case NumDoc(n) => VNum(LexemeText(n))
    case StrDoc(cs) => VStr(CharsMean(cs))
    case ListDoc(es) => VArr(ElementsMean(es))
    case RecordDoc(ms) => VObj(MembersMean(ms))
  }

  function ElementsMean(es: Elements): seq<Value>
    requires ElementsOk(es)
  {
    match es
    case NoElements(_) => []
    case LastElement(_, d, _) => [DocMeaning(d)]
    case Element(_, d, _, rest) => [DocMeaning(d)] + ElementsMean(rest)
  }

  function MembersMean(ms: Members): map<Bytes, Value>
    requires MembersOk(ms)
  {
    match ms
    case NoMembers(_) => map[]
    case LastMember(m, _) => map[KeyOf(m) := DocMeaning(m.d)]
    case MemberThen(m, _, rest) => map[KeyOf(m) := DocMeaning(m.d)] + MembersMean(rest)
  }

  /** Where no key comes twice, the node means what the text says. */
  lemma {:induction false} NodeMeans(d: Doc)
    requires DocOk(d) && Distinct(d)
    ensures Meaning(NodeOf(d)) == DocMeaning(d)
    decreases d
  {
    match d
    case ListDoc(es) =>
      hide Meaning, ElementsMean, Nodes;
      NodesMean(es);
      ArrMeaning(NodeOf(d));
      ItemsAre(Nodes(es), |Nodes(es)|);
    case RecordDoc(ms) =>
      hide Meaning, MembersMean, Inserted, TableMeaning, Sound, UniqueKeys;
      if ms.NoMembers? {
        EmptyMeans(ms);
      } else {
        EmptyTable();
        InsertedMeans([], ms);
        RecordMeans(Inserted([], ms), ms);
      }
    case _ =>
  }

  lemma EmptyMeans(ms: Members)
    requires MembersOk(ms) && ms.NoMembers?
    ensures Meaning(Obj(Blank(1))) == VObj(MembersMean(ms))
  {
    assert FieldsMeaning(Obj(Blank(1)), 1) == FieldsMeaning(Obj(Blank(1)), 0);
  }

  lemma EmptyTable()
    ensures Sound<Node>([]) && UniqueKeys([]) && TableMeaning([]) == map[]
  {
    NoneHolds<Node>();
  }

  lemma RecordMeans(t: Table<Node>, ms: Members)
    requires MembersOk(ms) && TableMeaning(t) == map[] + MembersMean(ms)
    ensures Meaning(Obj(t)) == VObj(MembersMean(ms))
  {
    hide FieldsMeaning, MembersMean;
    assert map[] + MembersMean(ms) == MembersMean(ms);
  }

  lemma {:induction false} ItemsAre(ns: seq<Node>, i: nat)
    requires i <= |ns|
    ensures |ItemsMeaning(Arr(ns), i)| == i && forall j :: 0 <= j < i ==> ItemsMeaning(Arr(ns), i)[j] == Meaning(ns[j])
  {
    hide Meaning;
    if i > 0 { ItemsAre(ns, i - 1); }
  }

  lemma {:induction false} NodesMean(es: Elements)
    requires ElementsOk(es) && ElementsDistinct(es)
    ensures |Nodes(es)| == |ElementsMean(es)|
    ensures forall j :: 0 <= j < |Nodes(es)| ==> Meaning(Nodes(es)[j]) == ElementsMean(es)[j]
    decreases es
  {
    hide Meaning, DocMeaning, DocOk, NodeOf;
    match es
    case NoElements(_) =>
    case LastElement(_, d, _) => NodeMeans(d);
    case Element(_, d, _, rest) =>
      NodeMeans(d);
      NodesMean(rest);
  }

  lemma {:induction false} InsertedMeans(t: Table<Node>, ms: Members)
    requires MembersOk(ms) && MembersDistinct(ms) && !ms.NoMembers?
    requires Sound(t) && UniqueKeys(t) && KeysOf(ms) !! TableMeaning(t).Keys
    ensures Searchable(Inserted(t, ms)) && TableMeaning(Inserted(t, ms)) == TableMeaning(t) + MembersMean(ms)
    decreases ms
  {
    hide Meaning, DocMeaning, MemberOk, NodeOf, TableMeaning, Sound, UniqueKeys, Add, EntryOf, KeyOf;
    var m := ms.m;
    ValueMeans(m);
    EntryMeans(t, m);
    if ms.MemberThen? {
      InsertedMeans(Add(t, EntryOf(m)), ms.rest);
    }
  }

  lemma {:induction false} ValueMeans(m: Member)
    requires MemberOk(m) && ValueDistinct(m)
    ensures Meaning(NodeOf(m.d)) == DocMeaning(m.d)
    decreases m
  {
    NodeMeans(m.d);
  }

  lemma EntryMeans(t: Table<Node>, m: Member)
    requires MemberOk(m) && Sound(t) && UniqueKeys(t) && KeyOf(m) !in TableMeaning(t)
    requires Meaning(NodeOf(m.d)) == DocMeaning(m.d)
    ensures var u := Add(t, EntryOf(m));
      Sound(u) && UniqueKeys(u) && u != [] && TableMeaning(u) == TableMeaning(t)[KeyOf(m) := DocMeaning(m.d)]
  {
    hide Meaning, DocMeaning, NodeOf, TableMeaning, Sound, UniqueKeys, Add, CStr, Hash, CharsMean, CharsOk, DocOk;
    AddMeans(t, EntryOf(m));
  }

  /** A text whose objects have no key twice is decoded to a node with the meaning of the text. */
  lemma DecodedMeans(s: Bytes, p: nat, w: Bytes, ms: Members, q: nat)
    requires IsText(s, p, w, ms, q) && MembersOk(ms) && MembersDistinct(ms)
    ensures var r := DecodeObjectText(s, p);
      r.Ok? && r.p == q && Meaning(r.v) == VObj(MembersMean(ms)) && r.v.Obj? && Searchable(r.v.table)
  {
    hide Meaning, MembersMean, Inserted, TableMeaning, Sound, UniqueKeys, IsText, MembersOk, DecodeObjectText;
    TextComplete(s, p, w, ms, q);
    NodeMeans(RecordDoc(ms));
    if ms.NoMembers? {
      BlankSearches();
    } else {
      EmptyTable();
      InsertedMeans([], ms);
    }
  }

  lemma BlankSearches()
    ensures Searchable(Blank(1))
  {
    BlankIsEmpty<Node>(1);
    assert Pow2(0) == 1;
    assert LeastPower(1, 1);
  }
}
