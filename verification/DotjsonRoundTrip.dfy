/** Printing a document and reading it back gives a document with the same meaning. */
module DotjsonRoundTrip {
  import opened Collections
  import opened DotjsonBits
  import opened DotjsonTable
  import opened DotjsonNode
  import opened DotjsonGrammar
  import opened DotjsonDecode
  import opened DotjsonEncode

  // ---- what can be printed faithfully -------------------------------------------------------------

  predicate NoNul(s: Bytes) { forall i :: 0 <= i < |s| ==> s[i] != '\0' }

  /** Keys are printed as they are. */
  predicate PlainKey(s: Bytes) { forall i :: 0 <= i < |s| ==> s[i] != '\0' && s[i] != '\"' && s[i] != '\\' }

  ghost predicate DistinctSlots(t: Table<Node>) {
    forall i, j :: 0 <= i < j < |t| && t[i].Some? && t[j].Some? ==> CStr(t[i].value.key) != CStr(t[j].value.key)
  }

  /** Strings without NUL, number lexemes the decoder accepts, plain and distinct keys. */
  ghost predicate Printable(n: Node) {
    match n
    case Num(raw) => NumEnd(raw, 0) == Some(|raw|)
    case Str(s) => NoNul(s)
    case Obj(t) => DistinctSlots(t) && forall i :: 0 <= i < |t| && t[i].Some? ==>
      PlainKey(t[i].value.key) && Printable(t[i].value.val)
    case Arr(items) => forall i :: 0 <= i < |items| ==> Printable(items[i])
    case _ => true
  }

  /** What may stand behind a value. */
  predicate Delim(c: Byte) { c == ',' || c == ']' || c == '}' || c == '\0' }

  lemma SpellsAt(s: Bytes, p: nat, w: Bytes, i: nat)
    requires Spells(s, p, w) && i < |w|
    ensures At(s, p + i) == w[i]
  {
    assert s[p..p + |w|][i] == w[i];
  }

  lemma FieldsSplit(n: Node, i: nat, first: bool)
    requires n.Obj? && i < |n.table| && n.table[i].Some?
    ensures FieldsText(n, i, first) + ['}'] ==
      (if first then FieldText(n.table[i].value) + (FieldsText(n, i + 1, false) + ['}'])
       else [','] + (FieldText(n.table[i].value) + (FieldsText(n, i + 1, false) + ['}'])))
    ensures |FieldsText(n, i, first)| ==
      (if first then 0 else 1) + |FieldText(n.table[i].value)| + |FieldsText(n, i + 1, false)|
  {
    hide FieldText;
  }

  lemma ItemsSplit(n: Node, i: nat)
    requires n.Arr? && i < |n.items|
    ensures ItemsText(n, i) + [']'] ==
      (if i == 0 then Text(n.items[i]) + (ItemsText(n, i + 1) + [']'])
       else [','] + (Text(n.items[i]) + (ItemsText(n, i + 1) + [']'])))
    ensures |ItemsText(n, i)| == (if i == 0 then 0 else 1) + |Text(n.items[i])| + |ItemsText(n, i + 1)|
  {
    hide Text;
  }

  lemma CommaThen(s: Bytes, p: nat, w: Bytes)
    requires Spells(s, p, [','] + w)
    ensures p < |s| && s[p] == ',' && Spells(s, p + 1, w)
  {
    SpellsParts(s, p, [','], w);
    assert s[p..p + 1][0] == s[p];
  }

  lemma SpellsParts(s: Bytes, p: nat, a: Bytes, b: Bytes)
    requires Spells(s, p, a + b)
    ensures Spells(s, p, a) && Spells(s, p + |a|, b)
  {
    assert s[p..p + |a + b|][..|a|] == a;
    assert s[p..p + |a + b|][|a|..] == b;
  }

  // ---- numbers ----------------------------------------------------------------------------------

  lemma {:induction false} DigitsShift(s: Bytes, p: nat, w: Bytes, k: nat)
    requires Spells(s, p, w) && Delim(At(s, p + |w|)) && k <= |w|
    ensures Digits(s, p + k) == p + Digits(w, k)
    decreases |w| - k
  {
    if k < |w| {
      SpellsAt(s, p, w, k);
      if Digit(w[k]) { DigitsShift(s, p, w, k + 1); }
    }
  }

  lemma AtShift(s: Bytes, p: nat, w: Bytes, k: nat)
    requires Spells(s, p, w) && Delim(At(s, p + |w|)) && k <= |w|
    ensures At(s, p + k) == At(w, k) || (k == |w| && Delim(At(s, p + k)) && At(w, k) == '\0')
  {
    if k < |w| { SpellsAt(s, p, w, k); }
  }

  function Shifted(p: nat, r: Option<nat>): Option<nat> {
    match r case None => None case Some(q) => Some(p + q)
  }

  lemma ExpShift(s: Bytes, p: nat, w: Bytes, k: nat)
    requires Spells(s, p, w) && Delim(At(s, p + |w|)) && k <= |w|
    ensures ExpEnd(s, p + k) == Shifted(p, ExpEnd(w, k))
  {
    AtShift(s, p, w, k);
    if k < |w| {
      AtShift(s, p, w, k + 1);
      DigitsShift(s, p, w, k + 1);
      if k + 1 < |w| { DigitsShift(s, p, w, k + 2); }
    }
  }

  /** Before a delimiter a lexeme is scanned as it is on its own. */
  lemma NumberShift(s: Bytes, p: nat, w: Bytes)
    requires Spells(s, p, w) && Delim(At(s, p + |w|))
    ensures NumEnd(s, p) == Shifted(p, NumEnd(w, 0))
  {
    hide Digits, ExpEnd, Spells;
    var a := Sign(w, 0);
    var b := Digits(w, a);
    AtShift(s, p, w, 0);
    assert Sign(s, p) == p + a;
    hide Sign;
    AtShift(s, p, w, b);
    DigitsShift(s, p, w, a);
    if At(w, b) == '.' {
      DigitsShift(s, p, w, b + 1);
      ExpShift(s, p, w, Digits(w, b + 1));
    } else {
      ExpShift(s, p, w, b);
    }
  }

  lemma NumberRound(s: Bytes, p: nat, w: Bytes)
    requires Spells(s, p, w) && Delim(At(s, p + |w|)) && NumEnd(w, 0) == Some(|w|)
    ensures NumEnd(s, p) == Some(p + |w|) && s[p..p + |w|] == w
  {
    hide NumEnd;
    NumberShift(s, p, w);
  }

  lemma NumberHead(w: Bytes)
    requires NumEnd(w, 0) == Some(|w|)
    ensures w != [] && (Digit(w[0]) || w[0] == '+' || w[0] == '-') && CStr(w) == w
  {
    NumberNoNul(w);
    CStrWhole(w);
  }

  lemma {:induction false} CStrWhole(s: Bytes)
    requires NoNul(s)
    ensures CStr(s) == s
  {
    if s != [] { CStrWhole(s[1..]); }
  }

  lemma {:induction false} DigitsAre(w: Bytes, k: nat)
    ensures forall i :: k <= i < Digits(w, k) ==> Digit(At(w, i))
    decreases |w| - k
  {
    if Digit(At(w, k)) { DigitsAre(w, k + 1); }
  }

  lemma NumberNoNul(w: Bytes)
    requires NumEnd(w, 0) == Some(|w|)
    ensures NoNul(w)
  {
    var a := Sign(w, 0);
    var b := Digits(w, a);
    var c := if At(w, b) == '.' then Digits(w, b + 1) else b;
    DigitsAre(w, a);
    DigitsAre(w, b + 1);
    DigitsAre(w, Sign(w, c + 1));
    forall i | 0 <= i < |w| ensures w[i] != '\0' {
      assert At(w, i) == w[i];
      hide Digits;
    }
  }

  // ---- strings ----------------------------------------------------------------------------------

  lemma EscapedPiece(s: Bytes, p: nat, c: Byte)
    requires Spells(s, p, Escaped(c)) && c != '\0'
    ensures At(s, p) != '\"' && At(s, p) != '\0' && p < |s| && Piece(s, p) == Ok(p + |Escaped(c)|, [c])
  {
    SpellsAt(s, p, Escaped(c), 0);
    if EscapeOf(c).Some? { SpellsAt(s, p, Escaped(c), 1); }
  }

  lemma EscapedFirst(t: Bytes)
    requires t != [] && t[0] != '\0'
    ensures EscapedAll(t) + ['\"'] == Escaped(t[0]) + (EscapedAll(t[1..]) + ['\"'])
    ensures |EscapedAll(t)| == |Escaped(t[0])| + |EscapedAll(t[1..])|
  {
    hide Escaped;
  }

  lemma FirstMoved(acc: Bytes, t: Bytes)
    requires t != []
    ensures acc + [t[0]] + t[1..] == acc + t
  {
  }

  lemma PieceThen(s: Bytes, p: nat, acc: Bytes)
    requires p < |s| && At(s, p) != '\"' && At(s, p) != '\0' && Piece(s, p).Ok?
    ensures Unescape(s, p, acc) == Unescape(s, Piece(s, p).p, acc + Piece(s, p).v)
  {
    hide Piece;
  }

  lemma {:induction false} StringRound(s: Bytes, p: nat, t: Bytes, acc: Bytes)
    requires NoNul(t) && Spells(s, p, EscapedAll(t) + ['\"'])
    ensures Unescape(s, p, acc) == Ok(p + |EscapedAll(t)| + 1, acc + t)
    decreases t
  {
    if t == [] {
      assert EscapedAll(t) + ['\"'] == ['\"'] && acc + t == acc;
      SpellsAt(s, p, ['\"'], 0);
    } else {
      assert NoNul(t[1..]) && t[0] != '\0';
      hide *;
      EscapedFirst(t);
      SpellsParts(s, p, Escaped(t[0]), EscapedAll(t[1..]) + ['\"']);
      EscapedPiece(s, p, t[0]);
      PieceThen(s, p, acc);
      StringRound(s, p + |Escaped(t[0])|, t[1..], acc + [t[0]]);
      FirstMoved(acc, t);
    }
  }

  lemma {:induction false} KeyRound(s: Bytes, p: nat, t: Bytes, acc: Bytes)
    requires PlainKey(t) && Spells(s, p, t + ['\"'])
    ensures Unescape(s, p, acc) == Ok(p + |t| + 1, acc + t)
    decreases t
  {
    SpellsAt(s, p, t + ['\"'], 0);
    if t == [] {
      assert acc + t == acc;
    } else {
      assert t + ['\"'] == [t[0]] + (t[1..] + ['\"']);
      SpellsParts(s, p, [t[0]], t[1..] + ['\"']);
      KeyRound(s, p + 1, t[1..], acc + [t[0]]);
      assert acc + [t[0]] + t[1..] == acc + t;
    }
  }

  // ---- the meaning of a table -----------------------------------------------------------------------

  ghost function TableMeaning(t: Table<Node>): map<Bytes, Value> {
    FieldsMeaning(Obj(t), |t|)
  }

  /** Entries with the same key are the same entry. */
  ghost predicate UniqueKeys(t: Table<Node>) {
    forall e, f :: e in Contents(t) && f in Contents(t) && CStr(e.key) == CStr(f.key) ==> e == f
  }

  lemma {:induction false} KeysBelow(n: Node, i: nat, k: Bytes)
    requires n.Obj? && i <= |n.table|
    ensures k in FieldsMeaning(n, i) <==> exists j :: 0 <= j < i && n.table[j].Some? && CStr(n.table[j].value.key) == k
  {
    if i > 0 { KeysBelow(n, i - 1, k); }
  }

  /** The value at a key is that of any entry that has it, when all of those agree. */
  lemma {:induction false} ValueBelow(n: Node, i: nat, e: Entry<Node>)
    requires n.Obj? && i <= |n.table|
    requires forall j :: 0 <= j < i && n.table[j].Some? && CStr(n.table[j].value.key) == CStr(e.key) ==>
      n.table[j].value == e
    requires exists j :: 0 <= j < i && n.table[j] == Some(e)
    ensures CStr(e.key) in FieldsMeaning(n, i) && FieldsMeaning(n, i)[CStr(e.key)] == Meaning(e.val)
  {
    hide Meaning;
    var j :| 0 <= j < i && n.table[j] == Some(e);
    if j < i - 1 && !(n.table[i - 1].Some? && CStr(n.table[i - 1].value.key) == CStr(e.key)) {
      ValueBelow(n, i - 1, e);
    }
  }

  lemma TableKeys(t: Table<Node>, k: Bytes)
    ensures k in TableMeaning(t) <==> exists e :: e in Contents(t) && CStr(e.key) == k
  {
    KeysBelow(Obj(t), |t|, k);
    if k in TableMeaning(t) {
      var j :| 0 <= j < |t| && t[j].Some? && CStr(t[j].value.key) == k;
      InContents(t, t[j].value);
    }
    if e :| e in Contents(t) && CStr(e.key) == k {
      InContents(t, e);
    }
  }

  lemma TableValue(t: Table<Node>, e: Entry<Node>)
    requires UniqueKeys(t) && e in Contents(t)
    ensures CStr(e.key) in TableMeaning(t) && TableMeaning(t)[CStr(e.key)] == Meaning(e.val)
  {
    InContents(t, e);
    forall j | 0 <= j < |t| && t[j].Some? && CStr(t[j].value.key) == CStr(e.key) ensures t[j].value == e {
      InContents(t, t[j].value);
    }
    ValueBelow(Obj(t), |t|, e);
  }

  /** Adding an entry under a new key adds exactly that binding. */
  lemma AddMeans(t: Table<Node>, e: Entry<Node>)
    requires Sound(t) && UniqueKeys(t) && e.keyhash == Hash(e.key) && CStr(e.key) !in TableMeaning(t)
    ensures Sound(Add(t, e)) && UniqueKeys(Add(t, e)) && Add(t, e) != []
    ensures TableMeaning(Add(t, e)) == TableMeaning(t)[CStr(e.key) := Meaning(e.val)]
  {
    var u := Add(t, e);
    AddKeeps(t, e);
    hide Add, Sound, Meaning, Hash, TableMeaning, CStr, Contents;
    assert forall f :: f in Contents(u) <==> f == e || f in Contents(t);
    forall f | f in Contents(t) ensures CStr(f.key) != CStr(e.key) { TableKeys(t, CStr(e.key)); }
    assert UniqueKeys(u);
    AddedMap(t, u, e);
  }

  lemma AddedMap(t: Table<Node>, u: Table<Node>, e: Entry<Node>)
    requires UniqueKeys(t) && UniqueKeys(u) && CStr(e.key) !in TableMeaning(t)
    requires forall f :: f in Contents(u) <==> f == e || f in Contents(t)
    ensures TableMeaning(u) == TableMeaning(t)[CStr(e.key) := Meaning(e.val)]
  {
    hide Meaning, TableMeaning, CStr, Contents, UniqueKeys;
    var m, w := TableMeaning(t), TableMeaning(u);
    TableValue(u, e);
    forall k ensures k in w <==> k in m || k == CStr(e.key) {
      TableKeys(t, k);
      TableKeys(u, k);
      assert e in Contents(u);
    }
    forall k | k in m ensures w[k] == m[k] {
      TableKeys(t, k);
      var f :| f in Contents(t) && CStr(f.key) == k;
      TableValue(t, f);
      TableValue(u, f);
    }
  }

  // ---- reading back what was printed ----------------------------------------------------------------

  /** The result ends at q and means what n means. */
  ghost predicate Reads(r: Dec<Node>, q: nat, n: Node) {
    r.Ok? && r.p == q && Meaning(r.v) == Meaning(n) && (r.v.Obj? ==> Searchable(r.v.table))
  }

  /** A lookup in the table finds what the table means. */
  ghost predicate Searchable(t: Table<Node>) {
    t != [] && Sound(t) && UniqueKeys(t)
  }

  /** No value starts with a space or a closing or separating mark. */
  lemma TextHead(n: Node)
    requires Printable(n)
    ensures Text(n) != [] && !Space(Text(n)[0]) && Text(n)[0] != ']' && Text(n)[0] != '}'
  {
    if n.Num? { NumberHead(n.raw); }
  }

  lemma NoSkip(s: Bytes, p: nat)
    requires !Space(At(s, p))
    ensures Skip(s, p) == p
  {
  }

  lemma {:induction false} NodeRound(n: Node, s: Bytes, p: nat)
    requires Printable(n) && Spells(s, p, Text(n)) && Delim(At(s, p + |Text(n)|))
    ensures Reads(DecodeNode(s, p), p + |Text(n)|, n)
    decreases n, 2 * Width(n) + 3
  {
    hide DecodeNode, DecodeFields, DecodeItems, Reads, Delim;
    if n.Obj? {
      BraceAndFields(n, s, p);
      FieldsStart(n, 0, s, p + 1);
      ObjectNode(s, p);
    } else if n.Arr? {
      BracketAndItems(n, s, p);
      ItemsStart(n, s, p + 1);
      ArrayNode(s, p);
    } else {
      ScalarRound(n, s, p);
    }
  }

  lemma BraceAndFields(n: Node, s: Bytes, p: nat)
    requires n.Obj? && Spells(s, p, Text(n))
    ensures At(s, p) == '{' && Spells(s, p + 1, FieldsText(n, 0, true) + ['}'])
    ensures |Text(n)| == |FieldsText(n, 0, true)| + 2
  {
    var w := FieldsText(n, 0, true) + ['}'];
    assert Text(n) == ['{'] + w;
    hide Text, FieldsText;
    SpellsParts(s, p, ['{'], w);
    SpellsAt(s, p, ['{'], 0);
  }

  lemma BracketAndItems(n: Node, s: Bytes, p: nat)
    requires n.Arr? && Spells(s, p, Text(n))
    ensures At(s, p) == '[' && Spells(s, p + 1, ItemsText(n, 0) + [']']) && |Text(n)| == |ItemsText(n, 0)| + 2
  {
    var w := ItemsText(n, 0) + [']'];
    assert Text(n) == ['['] + w;
    hide Text, ItemsText;
    SpellsParts(s, p, ['['], w);
    SpellsAt(s, p, ['['], 0);
  }

  lemma ScalarRound(n: Node, s: Bytes, p: nat)
    requires !n.Obj? && !n.Arr? && Printable(n) && Spells(s, p, Text(n)) && Delim(At(s, p + |Text(n)|))
    ensures Reads(DecodeNode(s, p), p + |Text(n)|, n)
  {
    hide Reads, DecodeNode, Delim, Spells, At;
    if n.Num? {
      NumberHead(n.raw);
      NumberNode(n.raw, s, p);
    } else if n.Str? {
      StringNode(n.s, s, p);
    } else {
      WordNode(n, s, p);
    }
  }

  lemma WordNode(n: Node, s: Bytes, p: nat)
    requires (n == Null || n == False || n == True) && Spells(s, p, Text(n))
    ensures Reads(DecodeNode(s, p), p + |Text(n)|, n)
  {
    hide Reads, DecodeNode;
    SpellsAt(s, p, Text(n), 0);
    ScalarNode(s, p);
    ReadsNow(p + |Text(n)|, n, n);
  }

  lemma NumberNode(raw: Bytes, s: Bytes, p: nat)
    requires NumEnd(raw, 0) == Some(|raw|) && Spells(s, p, raw) && Delim(At(s, p + |raw|))
    ensures Reads(DecodeNode(s, p), p + |raw|, Num(raw))
  {
    hide DecodeNode, NumEnd, Reads, CStr;
    NumberHead(raw);
    NumberRound(s, p, raw);
    SpellsAt(s, p, raw, 0);
    hide Spells, Delim, At;
    NumberAt(s, p, p + |raw|);
    ReadsNow(p + |raw|, Num(raw), Num(raw));
  }

  lemma NumberAt(s: Bytes, p: nat, q: nat)
    requires Digit(At(s, p)) || At(s, p) == '+' || At(s, p) == '-'
    requires NumEnd(s, p) == Some(q) && p <= q <= |s|
    ensures DecodeNode(s, p) == Ok(q, Num(s[p..q]))
  {
    hide DecodeFields, DecodeItems, ReadString, NumEnd;
    NoSkip(s, p);
  }

  lemma StringNode(t: Bytes, s: Bytes, p: nat)
    requires NoNul(t) && Spells(s, p, Text(Str(t)))
    ensures Reads(DecodeNode(s, p), p + |Text(Str(t))|, Str(t))
  {
    hide *;
    StringText(t);
    var w := EscapedAll(t) + ['\"'];
    SpellsParts(s, p, ['\"'], w);
    SpellsAt(s, p, ['\"'], 0);
    StringRound(s, p + 1, t, []);
    NoneLeft(t);
    StringAt(s, p, p + 1 + |w|, t);
    ReadsNow(p + 1 + |w|, Str(t), Str(t));
  }

  lemma StringText(t: Bytes)
    ensures Text(Str(t)) == ['\"'] + (EscapedAll(t) + ['\"'])
  {
    hide EscapedAll;
    Assoc(['\"'], EscapedAll(t), ['\"']);
  }

  lemma StringAt(s: Bytes, p: nat, q: nat, t: Bytes)
    requires At(s, p) == '\"' && Unescape(s, p + 1, []) == Ok(q, t)
    ensures DecodeNode(s, p) == Ok(q, Str(t))
  {
    hide DecodeFields, DecodeItems, Unescape;
    NoSkip(s, p);
  }

  lemma ObjectNode(s: Bytes, p: nat)
    requires At(s, p) == '{'
    ensures DecodeNode(s, p) == DecodeFields(s, p + 1, [])
  {
    hide DecodeFields;
    NoSkip(s, p);
  }

  lemma ArrayNode(s: Bytes, p: nat)
    requires At(s, p) == '['
    ensures DecodeNode(s, p) == DecodeItems(s, p + 1, [])
  {
    hide DecodeItems;
    NoSkip(s, p);
  }

  lemma ScalarNode(s: Bytes, p: nat)
    requires !Space(At(s, p))
    ensures Spells(s, p, NULL_TEXT) ==> DecodeNode(s, p) == Ok(p + 4, Null)
    ensures Spells(s, p, FALSE_TEXT) ==> DecodeNode(s, p) == Ok(p + 5, False)
    ensures Spells(s, p, TRUE_TEXT) ==> DecodeNode(s, p) == Ok(p + 4, True)
  {
    hide DecodeFields, DecodeItems, ReadString, NumEnd;
    NoSkip(s, p);
  }

  // Arrays.

  lemma ArrWidth(n: Node)
    requires n.Arr?
    ensures Width(n) == |n.items|
  {
  }

  lemma NoItemsMean(n: Node)
    requires n.Arr?
    ensures ItemsMeaning(n, 0) == []
  {
  }

  lemma NoItemsRead(n: Node, s: Bytes, p: nat)
    requires n.Arr? && n.items == [] && Spells(s, p, ItemsText(n, 0) + [']'])
    ensures Reads(DecodeItems(s, p, []), p + |ItemsText(n, 0)| + 1, n)
  {
    SpellsAt(s, p, ItemsText(n, 0) + [']'], 0);
    NoSkip(s, p);
    ItemsUnfold(s, p, []);
  }

  lemma {:induction false} ItemsStart(n: Node, s: Bytes, p: nat)
    requires n.Arr? && Printable(n) && Spells(s, p, ItemsText(n, 0) + [']'])
    ensures Reads(DecodeItems(s, p, []), p + |ItemsText(n, 0)| + 1, n)
    decreases n, Width(n) + 2
  {
    hide *;
    ArrWidth(n);
    if n.items == [] {
      NoItemsRead(n, s, p);
    } else {
      NoItemsMean(n);
      NoItemsMean(Arr([]));
      ItemsSplit(n, 0);
      ItemRound(n, 0, s, p, []);
    }
  }

  /** Item i and all after it, the ones before it being read already. */
  lemma {:induction false} ItemRound(n: Node, i: nat, s: Bytes, p: nat, items: seq<Node>)
    requires n.Arr? && Printable(n) && i < |n.items| && Spells(s, p, Text(n.items[i]) + (ItemsText(n, i + 1) + [']']))
    requires |items| == i && ItemsMeaning(Arr(items), i) == ItemsMeaning(n, i)
    ensures Reads(DecodeItems(s, p, items), p + |Text(n.items[i])| + |ItemsText(n, i + 1)| + 1, n)
    decreases n, |n.items| - i
  {
    hide *;
    var item := n.items[i];
    ItemOf(n, i);
    ItemThenMark(n, i, s, p);
    var v := p + |Text(item)|;
    NodeRound(item, s, p);
    var m := ReadNode(s, p, v, item);
    ItemsUnfold(s, p, items);
    AfterUnfold(s, v, items, m);
    OneMore(items, m, n, i);
    if i + 1 < |n.items| {
      ItemRound(n, i + 1, s, v + 1, items + [m]);
    } else {
      ReadsNow(v + 1, Arr(items + [m]), n);
    }
  }

  lemma ItemOf(n: Node, i: nat)
    requires n.Arr? && Printable(n) && i < |n.items|
    ensures Printable(n.items[i]) && n.items[i] < n
  {
  }

  /** Behind item i stands a comma and the next one, or the bracket. */
  lemma ItemThenMark(n: Node, i: nat, s: Bytes, p: nat)
    requires n.Arr? && i < |n.items| && Printable(n.items[i])
    requires Spells(s, p, Text(n.items[i]) + (ItemsText(n, i + 1) + [']']))
    ensures var v := p + |Text(n.items[i])|;
      && Spells(s, p, Text(n.items[i])) && Skip(s, p) == p && At(s, p) != ']' && Skip(s, v) == v && Delim(At(s, v))
      && if i + 1 < |n.items| then
           && At(s, v) == ',' && |ItemsText(n, i + 1)| == 1 + |Text(n.items[i + 1])| + |ItemsText(n, i + 2)|
           && Spells(s, v + 1, Text(n.items[i + 1]) + (ItemsText(n, i + 2) + [']']))
         else At(s, v) == ']' && ItemsText(n, i + 1) == []
  {
    hide *;
    var w, rest := Text(n.items[i]), ItemsText(n, i + 1) + [']'];
    SpellsParts(s, p, w, rest);
    TextHead(n.items[i]);
    SpellsAt(s, p, w, 0);
    NoSkip(s, p);
    MarkAfter(n, i, s, p + |w|);
  }

  lemma MarkAfter(n: Node, i: nat, s: Bytes, v: nat)
    requires n.Arr? && i < |n.items| && Spells(s, v, ItemsText(n, i + 1) + [']'])
    ensures Skip(s, v) == v && Delim(At(s, v))
    ensures if i + 1 < |n.items| then
           && At(s, v) == ',' && |ItemsText(n, i + 1)| == 1 + |Text(n.items[i + 1])| + |ItemsText(n, i + 2)|
           && Spells(s, v + 1, Text(n.items[i + 1]) + (ItemsText(n, i + 2) + [']']))
         else At(s, v) == ']' && ItemsText(n, i + 1) == []
  {
    hide Text, Spells;
    var rest := ItemsText(n, i + 1) + [']'];
    SpellsAt(s, v, rest, 0);
    if i + 1 < |n.items| {
      var next := Text(n.items[i + 1]) + (ItemsText(n, i + 2) + [']']);
      assert rest == [','] + next;
      SpellsParts(s, v, [','], next);
    }
    NoSkip(s, v);
  }

  lemma {:induction false} MeaningPrefix(a: seq<Node>, b: seq<Node>, i: nat)
    requires i <= |a| <= |b| && forall j :: 0 <= j < i ==> a[j] == b[j]
    ensures ItemsMeaning(Arr(a), i) == ItemsMeaning(Arr(b), i)
  {
    if i > 0 { MeaningPrefix(a, b, i - 1); }
  }

  lemma OneMore(items: seq<Node>, m: Node, n: Node, i: nat)
    requires n.Arr? && i < |n.items| && |items| == i && ItemsMeaning(Arr(items), i) == ItemsMeaning(n, i)
    requires Meaning(m) == Meaning(n.items[i])
    ensures ItemsMeaning(Arr(items + [m]), i + 1) == ItemsMeaning(n, i + 1)
    ensures i + 1 == |n.items| ==> Meaning(Arr(items + [m])) == Meaning(n)
  {
    hide *;
    MeaningPrefix(items, items + [m], i);
    MeaningUnfold(Arr(items + [m]), i);
    MeaningUnfold(n, i);
    if i + 1 == |n.items| {
      ArrMeaning(Arr(items + [m]));
      ArrMeaning(n);
    }
  }

  lemma MeaningUnfold(n: Node, i: nat)
    requires n.Arr? && i < |n.items|
    ensures ItemsMeaning(n, i + 1) == ItemsMeaning(n, i) + [Meaning(n.items[i])]
  {
    hide Meaning;
  }

  lemma ArrMeaning(n: Node)
    requires n.Arr?
    ensures Meaning(n) == VArr(ItemsMeaning(n, |n.items|))
  {
    hide ItemsMeaning;
  }

  // Objects.

  /** The table read so far stands for the fields printed so far. */
  ghost predicate SoFar(u: Table<Node>, n: Node, i: nat)
    requires n.Obj? && i <= |n.table|
  {
    Sound(u) && UniqueKeys(u) && TableMeaning(u) == FieldsMeaning(n, i)
  }

  lemma {:induction false} FieldsStart(n: Node, i: nat, s: Bytes, p: nat)
    requires n.Obj? && Printable(n) && i <= |n.table| && Spells(s, p, FieldsText(n, i, true) + ['}'])
    requires FieldsMeaning(n, i) == map[]
    ensures Reads(DecodeFields(s, p, []), p + |FieldsText(n, i, true)| + 1, n)
    decreases n, 2 * (|n.table| - i) + 2
  {
    hide DecodeFields, FieldText, Reads;
    if i == |n.table| {
      assert FieldsText(n, i, true) + ['}'] == ['}'];
      SpellsAt(s, p, ['}'], 0);
      assert At(s, p) == '}';
      NoSkip(s, p);
      FieldsUnfold(s, p, []);
      EmptyReads(n, p + 1);
    } else if n.table[i].None? {
      FieldsStart(n, i + 1, s, p);
    } else {
      assert FieldsText(n, i, true) + ['}'] == FieldText(n.table[i].value) + (FieldsText(n, i + 1, false) + ['}']);
      assert SoFar([], n, i);
      FieldRound(n, i, s, p, []);
    }
  }

  lemma EmptyReads(n: Node, p: nat)
    requires n.Obj? && FieldsMeaning(n, |n.table|) == map[]
    ensures Reads(Ok(p, Obj(Blank(1))), p, n)
  {
    assert FieldsMeaning(Obj(Blank(1)), 1) == FieldsMeaning(Obj(Blank(1)), 0);
    BlankIsEmpty<Node>(1);
    assert Pow2(0) == 1;
    assert LeastPower(1, 1);
  }

  /** Behind a field: the comma and the rest, or the brace. */
  lemma {:induction false} FieldsTail(n: Node, i: nat, s: Bytes, p: nat, u: Table<Node>)
    requires n.Obj? && Printable(n) && i <= |n.table| && Spells(s, p, FieldsText(n, i, false) + ['}']) && SoFar(u, n, i)
    requires u != []
    ensures At(s, p) == ',' || At(s, p) == '}'
    ensures var r := if At(s, p) == ',' then DecodeFields(s, p + 1, u) else Ok(p + 1, Obj(u));
      Reads(r, p + |FieldsText(n, i, false)| + 1, n)
    decreases n, 2 * (|n.table| - i) + 1
  {
    hide *;
    if i == |n.table| {
      FieldsEnd(n, s, p, u);
    } else if n.table[i].None? {
      NoField(n, i, u);
      FieldsTail(n, i + 1, s, p, u);
    } else {
      var w := FieldText(n.table[i].value) + (FieldsText(n, i + 1, false) + ['}']);
      FieldsSplit(n, i, false);
      CommaThen(s, p, w);
      AtByte(s, p);
      FieldRound(n, i, s, p + 1, u);
    }
  }

  lemma AtByte(s: Bytes, p: nat)
    requires p < |s|
    ensures At(s, p) == s[p]
  {
  }

  /** Behind the last field stands the brace, and the table read is the object's. */
  lemma FieldsEnd(n: Node, s: Bytes, p: nat, u: Table<Node>)
    requires n.Obj? && Spells(s, p, FieldsText(n, |n.table|, false) + ['}']) && SoFar(u, n, |n.table|) && u != []
    ensures At(s, p) == '}' && Reads(Ok(p + 1, Obj(u)), p + |FieldsText(n, |n.table|, false)| + 1, n)
  {
    assert FieldsText(n, |n.table|, false) + ['}'] == ['}'];
    SpellsAt(s, p, ['}'], 0);
  }

  lemma NoField(n: Node, i: nat, u: Table<Node>)
    requires n.Obj? && i < |n.table| && n.table[i].None?
    ensures FieldsText(n, i, false) == FieldsText(n, i + 1, false) && (SoFar(u, n, i) ==> SoFar(u, n, i + 1))
  {
  }

  /** Field i and all after it. */
  lemma {:induction false} FieldRound(n: Node, i: nat, s: Bytes, p: nat, u: Table<Node>)
    requires n.Obj? && Printable(n) && i < |n.table| && n.table[i].Some? && SoFar(u, n, i)
    requires Spells(s, p, FieldText(n.table[i].value) + (FieldsText(n, i + 1, false) + ['}']))
    ensures Reads(DecodeFields(s, p, u), p + |FieldText(n.table[i].value)| + |FieldsText(n, i + 1, false)| + 1, n)
    decreases n, 2 * (|n.table| - i)
  {
    hide *;
    var e := n.table[i].value;
    var v, c := p + |FieldText(e)|, p + |e.key| + 2;
    FreshKey(n, i);
    FieldThenMark(n, i, s, p);
    NodeRound(e.val, s, c + 1);
    var m := ReadNode(s, c + 1, v, e.val);
    var u2 := Add(u, Entry(Hash(e.key), e.key, m));
    TableStep(n, i, u, m);
    FieldsTail(n, i + 1, s, v, u2);
    FieldUnfold(s, p, u, e, m, v);
  }

  lemma ReadsNow(p: nat, m: Node, n: Node)
    requires Meaning(m) == Meaning(n) && !m.Obj?
    ensures Reads(Ok(p, m), p, n)
  {
  }

  lemma ReadNode(s: Bytes, p: nat, v: nat, n: Node) returns (m: Node)
    requires Reads(DecodeNode(s, p), v, n)
    ensures DecodeNode(s, p) == Ok(v, m) && Meaning(m) == Meaning(n)
  {
    hide DecodeNode, Meaning;
    m := DecodeNode(s, p).v;
  }

  /** Where the parts of field i are, and what stands behind it. */
  lemma FieldThenMark(n: Node, i: nat, s: Bytes, p: nat)
    requires n.Obj? && i < |n.table| && n.table[i].Some?
    requires PlainKey(n.table[i].value.key) && Printable(n.table[i].value.val)
    requires Spells(s, p, FieldText(n.table[i].value) + (FieldsText(n, i + 1, false) + ['}']))
    ensures var e := n.table[i].value;
      var v, c := p + |FieldText(e)|, p + |e.key| + 2;
      && e.val < n && v == c + 1 + |Text(e.val)|
      && Spells(s, v, FieldsText(n, i + 1, false) + ['}']) && Delim(At(s, v)) && (At(s, v) == ',' || At(s, v) == '}')
      && At(s, p) == '\"' && ReadString(s, p) == Ok(c, e.key) && At(s, c) == ':'
      && Spells(s, c + 1, Text(e.val)) && !Space(At(s, c + 1))
  {
    hide *;
    var e := n.table[i].value;
    FieldOf(n, i);
    RestHead(n, i + 1);
    var rest := FieldsText(n, i + 1, false) + ['}'];
    var v := p + |FieldText(e)|;
    SpellsParts(s, p, FieldText(e), rest);
    SpellsAt(s, v, rest, 0);
    MarkIsDelim(rest[0]);
    KeyThenColon(s, p, e);
  }

  lemma FieldOf(n: Node, i: nat)
    requires n.Obj? && i < |n.table| && n.table[i].Some?
    ensures var e := n.table[i].value; e.val < n && |FieldText(e)| == |e.key| + 3 + |Text(e.val)|
  {
    hide Text;
  }

  lemma MarkIsDelim(c: Byte)
    requires c == ',' || c == '}'
    ensures Delim(c)
  {
  }

  lemma TableStep(n: Node, i: nat, u: Table<Node>, m: Node)
    requires n.Obj? && Printable(n) && i < |n.table| && n.table[i].Some? && SoFar(u, n, i)
    requires Meaning(m) == Meaning(n.table[i].value.val)
    ensures var a := Add(u, Entry(Hash(n.table[i].value.key), n.table[i].value.key, m)); SoFar(a, n, i + 1) && a != []
  {
    var e := n.table[i].value;
    assert FieldsMeaning(n, i + 1) == FieldsMeaning(n, i)[CStr(e.key) := Meaning(e.val)];
    FreshKey(n, i);
    hide Add, Hash, FieldsMeaning, Meaning, CStr, Printable, Sound, UniqueKeys, TableMeaning;
    AddMeans(u, Entry(Hash(e.key), e.key, m));
  }

  lemma RestHead(n: Node, i: nat)
    requires n.Obj? && i <= |n.table|
    ensures var rest := FieldsText(n, i, false) + ['}']; rest[0] == ',' || rest[0] == '}'
    decreases n, |n.table| - i
  {
    hide FieldText;
    if i < |n.table| && n.table[i].None? { RestHead(n, i + 1); }
  }

  lemma FreshKey(n: Node, i: nat)
    requires n.Obj? && Printable(n) && i < |n.table| && n.table[i].Some?
    ensures CStr(n.table[i].value.key) !in FieldsMeaning(n, i) && PlainKey(n.table[i].value.key)
    ensures Printable(n.table[i].value.val)
  {
    KeysBelow(n, i, CStr(n.table[i].value.key));
  }

  /** The printed key is read back, a colon follows, then the value. */
  lemma KeyThenColon(s: Bytes, p: nat, e: Entry<Node>)
    requires Spells(s, p, FieldText(e)) && PlainKey(e.key) && Printable(e.val)
    ensures var c := p + |e.key| + 2;
      && At(s, p) == '\"' && ReadString(s, p) == Ok(c, e.key) && At(s, c) == ':'
      && Spells(s, c + 1, Text(e.val)) && !Space(At(s, c + 1))
  {
    hide *;
    FieldTextParts(e);
    var k, val := e.key + ['\"'], Text(e.val);
    SpellsParts(s, p, ['\"'], k + ([':'] + val));
    SpellsParts(s, p + 1, k, [':'] + val);
    SpellsParts(s, p + 1 + |k|, [':'], val);
    SpellsAt(s, p, ['\"'], 0);
    SpellsAt(s, p + 1 + |k|, [':'], 0);
    KeyRound(s, p + 1, e.key, []);
    NoneLeft(e.key);
    ReadsString(s, p, p + 1 + |k|, e.key);
    TextHead(e.val);
    SpellsAt(s, p + 2 + |k|, val, 0);
  }

  lemma FieldTextParts(e: Entry<Node>)
    ensures FieldText(e) == ['\"'] + (e.key + ['\"'] + ([':'] + Text(e.val)))
  {
    hide Text;
  }

  lemma ReadsString(s: Bytes, p: nat, q: nat, t: Bytes)
    requires At(s, p) == '\"' && Unescape(s, p + 1, []) == Ok(q, t)
    ensures ReadString(s, p) == Ok(q, t)
  {
    hide Unescape;
  }

  lemma FieldUnfold(s: Bytes, p: nat, u: Table<Node>, e: Entry<Node>, m: Node, v: nat)
    requires var c := p + |e.key| + 2;
      && At(s, p) == '\"' && ReadString(s, p) == Ok(c, e.key) && At(s, c) == ':'
      && !Space(At(s, c + 1)) && DecodeNode(s, c + 1) == Ok(v, m)
    requires At(s, v) == ',' || At(s, v) == '}'
    ensures var a := Add(u, Entry(Hash(e.key), e.key, m));
      DecodeFields(s, p, u) == if At(s, v) == ',' then DecodeFields(s, v + 1, a) else Ok(v + 1, Obj(a))
  {
    hide DecodeFields, DecodeNode, ReadString, Add, Hash;
    var c := p + |e.key| + 2;
    NoSkip(s, p);
    NoSkip(s, c);
    NoSkip(s, c + 1);
    NoSkip(s, v);
    FieldsUnfold(s, p, u);
  }

  // ---- the whole way --------------------------------------------------------------------------------

  /** Printing an object and decoding the text takes all of it and gives the same meaning. */
  lemma RoundTrip(n: Node)
    requires n.Obj? && Printable(n)
    ensures Reads(DecodeObjectText(Text(n), 0), |Text(n)|, n)
  {
    hide Text, DecodeFields, FieldsText, Reads;
    var s := Text(n);
    assert Spells(s, 0, s);
    BraceAndFields(n, s, 0);
    NoSkip(s, 0);
    FieldsStart(n, 0, s, 1);
  }

  /** Why keys must be plain: one that holds a quote is printed as it is, and the text is not read back. */
  lemma QuoteInKeyIsLost(h: nat)
    ensures DecodeObjectText(Text(Obj([Some(Entry(h, ['\"'], Null))])), 0).Fail?
  {
    QuoteText(h);
    hide Text;
    var s: Bytes := ['{', '\"', '\"', '\"', ':', 'n', 'u', 'l', 'l', '}'];
    NoSkip(s, 0);
    NoSkip(s, 1);
    NoSkip(s, 3);
    FieldsUnfold(s, 1, []);
    hide DecodeFields;
    assert ReadString(s, 1) == Ok(3, []);
  }

  lemma QuoteText(h: nat)
    ensures Text(Obj([Some(Entry(h, ['\"'], Null))])) == ['{', '\"', '\"', '\"', ':', 'n', 'u', 'l', 'l', '}']
  {
    var e := Entry(h, ['\"'], Null);
    var n := Obj([Some(e)]);
    assert FieldsText(n, 1, false) == [] && n.table[0] == Some(e);
    assert FieldText(e) == ['\"', '\"', '\"', ':', 'n', 'u', 'l', 'l'];
    hide FieldText;
    assert FieldsText(n, 0, true) == FieldText(e);
  }

  /** dotjson_object_get on such a table gives the value under the key, and nothing where there is none. */
  lemma GetMeans(t: Table<Node>, key: Bytes)
    requires Searchable(t)
    ensures Get(t, key).Some? <==> CStr(key) in TableMeaning(t)
    ensures Get(t, key).Some? ==> Meaning(Get(t, key).value) == TableMeaning(t)[CStr(key)]
  {
    GetSound(t, key);
    TableKeys(t, CStr(key));
    hide Get, CStr, TableMeaning, Meaning, UniqueKeys, Contents;
    if Get(t, key).Some? {
      var e :| e in Contents(t) && CStr(e.key) == CStr(key) && e.val == Get(t, key).value;
      TableValue(t, e);
    }
  }

  /**
   * The same through the program: measure with no buffer, print, decode. The whole text is used, the
   * meaning is kept, and every lookup in the new object gives what the old one had.
   */
  method EncodeThenDecode(n: Node, key: Bytes) returns (used: nat, m: Node, v: Option<Node>)
    requires n.Obj? && Printable(n) && Colons(Text(n), |Text(n)|) < Pow2(32)
    ensures used == |Text(n)| && Meaning(m) == Meaning(n)
    ensures v.Some? <==> CStr(key) in TableMeaning(n.table)
    ensures v.Some? ==> Meaning(v.value) == TableMeaning(n.table)[CStr(key)]
  {
    assert Meaning(n) == VObj(TableMeaning(n.table));
    hide Text, Printable, TableMeaning, Searchable, Get, CStr;
    var none := new Byte[0];
    var len := Encode(n, none);
    var buf := new Byte[len + 1];
    used := Encode(n, buf);
    var text := buf[..len];
    RoundTrip(n);
    var node;
    used, node := DecodeObject(text, 0);
    m := node.value;
    assert m.Obj? && Meaning(m) == VObj(TableMeaning(m.table)) by { ObjMeaning(m, n); }
    assert m.table != [] by { SearchableHolds(m.table); }
    v := Get(m.table, key);
    GetMeans(m.table, key);
  }

  lemma SearchableHolds(t: Table<Node>)
    requires Searchable(t)
    ensures t != []
  {
  }

  lemma ObjMeaning(m: Node, n: Node)
    requires n.Obj? && Meaning(m) == Meaning(n)
    ensures m.Obj? && Meaning(m) == VObj(TableMeaning(m.table))
  {
  }
}
