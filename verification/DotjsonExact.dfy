/** The round trip of whole objects holds exactly when every key is plain. */
module DotjsonExact {
  import opened Collections
  import opened DotjsonTable
  import opened DotjsonNode
  import opened DotjsonGrammar
  import opened DotjsonDecode
  import opened DotjsonRoundTrip
  import opened DotjsonLimits

  // ---- keys at any depth ----------------------------------------------------------------------------

  /** k is a key of an object anywhere in n. */
  ghost predicate DeepKey(n: Node, k: Bytes) {
    match n
    case Obj(t) => exists j :: 0 <= j < |t| && t[j].Some? && (t[j].value.key == k || DeepKey(t[j].value.val, k))
    case Arr(items) => exists j :: 0 <= j < |items| && DeepKey(items[j], k)
    case _ => false
  }

  /** Printable but for the keys, which are only required to be distinct. */
  ghost predicate Sane(n: Node) {
    match n
    case Num(raw) => NumEnd(raw, 0) == Some(|raw|)
    case Str(s) => NoNul(s)
    case Obj(t) => DistinctSlots(t) && forall i :: 0 <= i < |t| && t[i].Some? ==> Sane(t[i].value.val)
    case Arr(items) => forall i :: 0 <= i < |items| ==> Sane(items[i])
    case _ => true
  }

  ghost predicate AllPlain(n: Node) {
    forall k :: DeepKey(n, k) ==> PlainKey(k)
  }

  lemma {:induction false} PlainIsPrintable(n: Node)
    requires Sane(n) && AllPlain(n)
    ensures Printable(n)
    decreases n
  {
    match n
    case Obj(t) =>
      forall i | 0 <= i < |t| && t[i].Some? ensures PlainKey(t[i].value.key) && Printable(t[i].value.val) {
        assert DeepKey(n, t[i].value.key);
        assert forall k :: DeepKey(t[i].value.val, k) ==> DeepKey(n, k);
        PlainIsPrintable(t[i].value.val);
      }
    case Arr(items) =>
      forall i | 0 <= i < |items| ensures Printable(items[i]) {
        assert forall k :: DeepKey(items[i], k) ==> DeepKey(n, k);
        PlainIsPrintable(items[i]);
      }
    case _ =>
  }

  // ---- equal meanings have equal keys ---------------------------------------------------------------

  /** The value at a key of an object is that of one of its entries. */
  lemma {:induction false} SomeEntry(n: Node, i: nat, k: Bytes) returns (j: nat)
    requires n.Obj? && i <= |n.table| && k in FieldsMeaning(n, i)
    ensures j < i && n.table[j].Some? && CStr(n.table[j].value.key) == k
    ensures FieldsMeaning(n, i)[k] == Meaning(n.table[j].value.val)
  {
    hide Meaning, CStr;
    if n.table[i - 1].Some? && CStr(n.table[i - 1].value.key) == k {
      j := i - 1;
    } else {
      j := SomeEntry(n, i - 1, k);
    }
  }

  lemma {:induction false} ItemMeaning(n: Node, i: nat, j: nat)
    requires n.Arr? && j < i <= |n.items|
    ensures |ItemsMeaning(n, i)| == i && ItemsMeaning(n, i)[j] == Meaning(n.items[j])
  {
    hide Meaning;
    ItemsLength(n, i - 1);
    if j < i - 1 { ItemMeaning(n, i - 1, j); }
  }

  lemma {:induction false} ItemsLength(n: Node, i: nat)
    requires n.Arr? && i <= |n.items|
    ensures |ItemsMeaning(n, i)| == i
  {
    if i > 0 { ItemsLength(n, i - 1); }
  }

  /** A node that means the same has every key, up to NUL. */
  lemma {:induction false} SameKeys(n: Node, m: Node, k: Bytes) returns (d: Bytes)
    requires Sane(n) && Meaning(m) == Meaning(n) && DeepKey(n, k)
    ensures DeepKey(m, d) && CStr(d) == CStr(k)
    decreases n
  {
    match n
    case Obj(t) =>
      assert m.Obj? && FieldsMeaning(m, |m.table|) == FieldsMeaning(n, |t|);
      var j :| 0 <= j < |t| && t[j].Some? && (t[j].value.key == k || DeepKey(t[j].value.val, k));
      d := SameFieldKeys(n, m, j, k);
    case Arr(items) =>
      assert m.Arr? && ItemsMeaning(m, |m.items|) == ItemsMeaning(n, |items|);
      var j :| 0 <= j < |items| && DeepKey(items[j], k);
      ItemMeaning(n, |items|, j);
      ItemsLength(m, |m.items|);
      ItemMeaning(m, |m.items|, j);
      d := SameKeys(items[j], m.items[j], k);
    case _ =>
  }

  lemma {:induction false} SameFieldKeys(n: Node, m: Node, j: nat, k: Bytes) returns (d: Bytes)
    requires n.Obj? && Sane(n) && m.Obj? && FieldsMeaning(m, |m.table|) == FieldsMeaning(n, |n.table|)
    requires j < |n.table| && n.table[j].Some? && (n.table[j].value.key == k || DeepKey(n.table[j].value.val, k))
    ensures DeepKey(m, d) && CStr(d) == CStr(k)
    decreases n, 0
  {
    var e := n.table[j].value;
    assert e.val < n;
    ValueBelow(n, |n.table|, e);
    hide Meaning, CStr, FieldsMeaning;
    var i := SomeEntry(m, |m.table|, CStr(e.key));
    if e.key == k {
      d := m.table[i].value.key;
    } else {
      d := SameKeys(e.val, m.table[i].value.val, k);
    }
  }

  // ---- quotes and backslashes in a string that is read --------------------------------------------

  predicate Special(c: Byte) { c == '\"' || c == '\\' }

  /** Inside a string a quote follows a backslash. */
  lemma {:induction false} QuoteAfterBackslash(s: Bytes, p: nat, acc: Bytes, r: nat)
    requires p <= r < |s| && Unescape(s, p, acc).Ok? && r < Unescape(s, p, acc).p - 1 && s[r] == '\"'
    ensures p < r && s[r - 1] == '\\'
    decreases |s| - p
  {
    assert At(s, p) != '\"';
    var t := Piece(s, p);
    UnescapeStep(s, p, acc);
    ReadShrinks(s, p, acc);
    hide Piece, Unescape;
    if r >= t.p {
      QuoteAfterBackslash(s, t.p, acc + t.v, r);
    } else {
      QuoteInPiece(s, p, r);
    }
  }

  lemma QuoteInPiece(s: Bytes, p: nat, r: nat)
    requires p < |s| && s[p] != '\0' && s[p] != '\"' && Piece(s, p).Ok? && p <= r < Piece(s, p).p <= |s| && s[r] == '\"'
    ensures p < r && s[r - 1] == '\\'
  {
    hide Piece;
    PieceShrinks(s, p);
  }

  /** What an escape for a quote or backslash stands for is one byte. */
  lemma SpecialPiece(s: Bytes, p: nat, k: nat)
    requires p < |s| && s[p] != '\"' && Piece(s, p).Ok? && k < |Piece(s, p).v| && Special(Piece(s, p).v[k])
    ensures s[p] == '\\' && |Piece(s, p).v| == 1
  {
  }

  /** A quote or backslash that is read comes from an escape no further to the front than itself. */
  lemma {:induction false} Source(s: Bytes, p: nat, acc: Bytes, e: nat) returns (x: nat, before: Bytes)
    requires p <= |s| && Unescape(s, p, acc).Ok?
    requires |acc| <= e < |Unescape(s, p, acc).v| && Special(Unescape(s, p, acc).v[e])
    ensures p <= x < |s| && x < Unescape(s, p, acc).p - 1 && s[x] == '\\'
    ensures |before| == e && e - |acc| <= x - p && Unescape(s, x, before) == Unescape(s, p, acc)
    ensures Piece(s, x).Ok? && |Piece(s, x).v| == 1 && Piece(s, x).v[0] == Unescape(s, p, acc).v[e]
    decreases |s| - p
  {
    ReadShrinks(s, p, acc);
    assert At(s, p) != '\"';
    var t := Piece(s, p);
    UnescapeStep(s, p, acc);
    PieceShrinks(s, p);
    ReadShrinks(s, t.p, acc + t.v);
    if e < |acc| + |t.v| {
      assert t.v[e - |acc|] == Unescape(s, p, acc).v[e];
      SpecialPiece(s, p, e - |acc|);
      x, before := p, acc;
    } else {
      hide Piece, Unescape;
      x, before := Source(s, t.p, acc + t.v, e);
    }
  }

  // ---- where keys are read --------------------------------------------------------------------------

  /** A string that the decoder takes for a key: behind a brace, comma or space, before a colon. */
  ghost predicate KeyToken(s: Bytes, a: nat, b: nat, d: Bytes) {
    && 0 < a < |s| && s[a] == '\"' && (s[a - 1] == '{' || s[a - 1] == ',' || Space(s[a - 1]))
    && ReadString(s, a) == Ok(b, d) && At(s, Skip(s, b)) == ':'
  }

  lemma {:induction false} SkipBefore(s: Bytes, p: nat)
    requires p <= |s|
    ensures Skip(s, p) == p || Space(s[Skip(s, p) - 1])
    decreases |s| - p
  {
    if Space(At(s, p)) { SkipBefore(s, p + 1); }
  }

  ghost predicate Tokened(s: Bytes, k: Bytes) {
    exists a, b :: KeyToken(s, a, b, k)
  }

  /** All keys in n, at any depth, were read as keys. */
  ghost predicate AllTokened(s: Bytes, n: Node) {
    forall k :: DeepKey(n, k) ==> Tokened(s, k)
  }

  ghost predicate EntriesTokened(s: Bytes, t: Table<Node>) {
    forall e :: e in Contents(t) ==> Tokened(s, e.key) && AllTokened(s, e.val)
  }

  lemma TableTokened(s: Bytes, t: Table<Node>)
    requires EntriesTokened(s, t)
    ensures AllTokened(s, Obj(t))
  {
    hide Tokened, AllTokened, Contents;
    forall k | DeepKey(Obj(t), k) ensures Tokened(s, k) {
      var j :| 0 <= j < |t| && t[j].Some? && (t[j].value.key == k || DeepKey(t[j].value.val, k));
      InContents(t, t[j].value);
      assert AllTokened(s, t[j].value.val);
      TokenedOne(s, t[j].value.val, k);
    }
    TokenedAll(s, Obj(t));
  }

  lemma TokenedOne(s: Bytes, n: Node, k: Bytes)
    requires AllTokened(s, n)
    ensures DeepKey(n, k) ==> Tokened(s, k)
  {
  }

  lemma TokenedAll(s: Bytes, n: Node)
    requires forall k :: DeepKey(n, k) ==> Tokened(s, k)
    ensures AllTokened(s, n)
  {
  }

  /** Every key of a decoded value was read as one. */
  lemma {:induction false} NodeTokened(s: Bytes, p: nat)
    requires p <= |s| && DecodeNode(s, p).Ok?
    ensures AllTokened(s, DecodeNode(s, p).v)
    decreases |s| - p, 2
  {
    var q := Skip(s, p);
    NodeSkips(s, p);
    hide DecodeNode, DecodeFields, DecodeItems, AllTokened, EntriesTokened;
    if At(s, q) == '{' {
      ObjectNode(s, q);
      NoEntries(s);
      FieldsTokened(s, q + 1, []);
      TableTokened(s, DecodeNode(s, q).v.table);
    } else if At(s, q) == '[' {
      ArrayNode(s, q);
      ItemsTokened(s, q + 1, []);
    } else {
      NoKeys(s, q);
    }
  }

  lemma NoEntries(s: Bytes)
    ensures EntriesTokened(s, []) && EntriesTokened(s, Blank(1)) && Sound<Node>([])
  {
    NoneHolds<Node>();
    BlankIsEmpty<Node>(1);
  }

  lemma NoKeys(s: Bytes, p: nat)
    requires !Space(At(s, p)) && At(s, p) != '{' && At(s, p) != '[' && DecodeNode(s, p).Ok?
    ensures AllTokened(s, DecodeNode(s, p).v)
  {
    NoSkip(s, p);
    hide DecodeFields, DecodeItems, ReadString, NumEnd, Tokened;
  }

  lemma {:induction false} ItemsTokened(s: Bytes, p: nat, items: seq<Node>)
    requires p <= |s| && DecodeItems(s, p, items).Ok? && forall i :: 0 <= i < |items| ==> AllTokened(s, items[i])
    ensures AllTokened(s, DecodeItems(s, p, items).v)
    decreases |s| - p, 3
  {
    hide DecodeItems, DecodeNode, AllTokened;
    ItemsUnfold(s, p, items);
    var q := Skip(s, p);
    if At(s, q) == ']' {
      ArrayTokened(s, []);
    } else {
      var v := DecodeNode(s, q);
      NodeTokened(s, q);
      var e := Skip(s, v.p);
      if At(s, e) == ',' {
        ItemsTokened(s, e + 1, items + [v.v]);
      } else {
        ArrayTokened(s, items + [v.v]);
      }
    }
  }

  lemma ArrayTokened(s: Bytes, items: seq<Node>)
    requires forall i :: 0 <= i < |items| ==> AllTokened(s, items[i])
    ensures AllTokened(s, Arr(items))
  {
    hide Tokened;
  }

  lemma {:induction false} FieldsTokened(s: Bytes, p: nat, t: Table<Node>)
    requires 0 < p <= |s| && (s[p - 1] == '{' || s[p - 1] == ',') && Sound(t) && DecodeFields(s, p, t).Ok?
    requires EntriesTokened(s, t)
    ensures DecodeFields(s, p, t).v.Obj? && EntriesTokened(s, DecodeFields(s, p, t).v.table)
    decreases |s| - p, 3
  {
    hide Sound, Contents, Add, Hash, DecodeNode, ReadString, AfterValue, DecodeFields, EntriesTokened, KeyToken;
    FieldsUnfold(s, p, t);
    if At(s, Skip(s, p)) == '}' {
      NoEntries(s);
    } else {
      var a := Skip(s, p);
      var q, key := ReadString(s, a).p, ReadString(s, a).v;
      var v := DecodeNode(s, Skip(s, Skip(s, q) + 1));
      KeyIsToken(s, p);
      NodeTokened(s, Skip(s, Skip(s, q) + 1));
      ValueKeep(s, v.p, t, key, v.v);
      var u := Add(t, Entry(Hash(key), key, v.v));
      OneMoreTokened(s, t, u, Entry(Hash(key), key, v.v));
      if At(s, Skip(s, v.p)) == ',' { FieldsTokened(s, Skip(s, v.p) + 1, u); }
    }
  }

  lemma KeyIsToken(s: Bytes, p: nat)
    requires 0 < p <= |s| && (s[p - 1] == '{' || s[p - 1] == ',')
    requires ReadString(s, Skip(s, p)).Ok? && At(s, Skip(s, ReadString(s, Skip(s, p)).p)) == ':'
    ensures Tokened(s, ReadString(s, Skip(s, p)).v)
  {
    SkipBefore(s, p);
    ReadsQuote(s, Skip(s, p));
    hide ReadString;
    assert KeyToken(s, Skip(s, p), ReadString(s, Skip(s, p)).p, ReadString(s, Skip(s, p)).v);
  }

  lemma OneMoreTokened(s: Bytes, t: Table<Node>, u: Table<Node>, e: Entry<Node>)
    requires EntriesTokened(s, t) && Contents(u) == Contents(t) + multiset{e} && Tokened(s, e.key)
    requires AllTokened(s, e.val)
    ensures EntriesTokened(s, u)
  {
    hide Contents, Tokened, AllTokened;
    assert forall f :: f in Contents(u) <==> f == e || f in Contents(t);
  }

  lemma ReadsQuote(s: Bytes, p: nat)
    requires ReadString(s, p).Ok?
    ensures p < |s| && s[p] == '\"'
  {
  }

  // ---- where backslashes are printed ----------------------------------------------------------------

  /** The field of slot j is printed at f, behind a brace or comma and before a comma or brace. */
  ghost predicate FieldAt(n: Node, s: Bytes, j: nat, f: nat) {
    && n.Obj? && j < |n.table| && n.table[j].Some? && 0 < f && Spells(s, f, FieldText(n.table[j].value))
    && (s[f - 1] == '{' || s[f - 1] == ',') && Delim(At(s, f + |FieldText(n.table[j].value)|))
  }

  /** A backslash among printed fields is in one of them. */
  lemma {:induction false} FieldOfBackslash(n: Node, i: nat, first: bool, s: Bytes, p: nat, x: nat)
    returns (j: nat, f: nat)
    requires n.Obj? && i <= |n.table| && Spells(s, p, FieldsText(n, i, first) + ['}'])
    requires 0 < p && (first ==> s[p - 1] == '{')
    requires p <= x < p + |FieldsText(n, i, first)| && s[x] == '\\'
    ensures i <= j && FieldAt(n, s, j, f) && f <= x < f + |FieldText(n.table[j].value)|
    decreases |n.table| - i
  {
    hide FieldText, Delim;
    if n.table[i].None? {
      j, f := FieldOfBackslash(n, i + 1, first, s, p, x);
    } else {
      var w, rest := FieldText(n.table[i].value), FieldsText(n, i + 1, false) + ['}'];
      f := if first then p else p + 1;
      FieldPlaced(n, i, first, s, p);
      if x < f + |w| {
        j := i;
      } else {
        j, f := FieldOfBackslash(n, i + 1, false, s, f + |w|, x);
      }
    }
  }

  lemma FieldPlaced(n: Node, i: nat, first: bool, s: Bytes, p: nat)
    requires n.Obj? && i < |n.table| && n.table[i].Some? && Spells(s, p, FieldsText(n, i, first) + ['}'])
    requires 0 < p && (first ==> s[p - 1] == '{')
    ensures var w := FieldText(n.table[i].value);
      var f := if first then p else p + 1;
      && FieldAt(n, s, i, f) && Spells(s, f + |w|, FieldsText(n, i + 1, false) + ['}'])
      && |FieldsText(n, i, first)| == (f - p) + |w| + |FieldsText(n, i + 1, false)| && (!first ==> s[p] == ',')
  {
    hide *;
    var w, rest := FieldText(n.table[i].value), FieldsText(n, i + 1, false) + ['}'];
    var f := if first then p else p + 1;
    RestHead(n, i + 1);
    FieldsAt(n, i, first, s, p);
    SpellsParts(s, f, w, rest);
    SpellsAt(s, f + |w|, rest, 0);
    MarkIsDelim(rest[0]);
    Placed(n, i, s, f);
  }

  lemma FieldsAt(n: Node, i: nat, first: bool, s: Bytes, p: nat)
    requires n.Obj? && i < |n.table| && n.table[i].Some? && Spells(s, p, FieldsText(n, i, first) + ['}'])
    ensures var w := FieldText(n.table[i].value); var f := if first then p else p + 1;
      && Spells(s, f, w + (FieldsText(n, i + 1, false) + ['}'])) && f < |s| && (!first ==> s[p] == ',')
      && |FieldsText(n, i, first)| == (f - p) + |w| + |FieldsText(n, i + 1, false)|
  {
    hide *;
    var t := FieldText(n.table[i].value) + (FieldsText(n, i + 1, false) + ['}']);
    FieldsSplit(n, i, first);
    if !first {
      CommaThen(s, p, t);
    }
    SpellsFits(s, if first then p else p + 1, t);
  }

  lemma Placed(n: Node, j: nat, s: Bytes, f: nat)
    requires n.Obj? && j < |n.table| && n.table[j].Some? && 0 < f && Spells(s, f, FieldText(n.table[j].value))
    requires f <= |s| && (s[f - 1] == '{' || s[f - 1] == ',') && Delim(At(s, f + |FieldText(n.table[j].value)|))
    ensures FieldAt(n, s, j, f)
  {
  }

  /** The parts of a field. */
  lemma FieldParts(s: Bytes, f: nat, e: Entry<Node>)
    requires Spells(s, f, FieldText(e))
    ensures var v := f + |e.key| + 3;
      && f + |FieldText(e)| == v + |Text(e.val)| && Spells(s, f + 1, e.key + ['\"']) && Spells(s, v, Text(e.val))
      && At(s, f) == '\"' && At(s, v - 1) == ':'
  {
    FieldTextParts(e);
    hide Text, FieldText;
    var k, t := e.key + ['\"'], Text(e.val);
    SpellsParts(s, f, ['\"'], k + ([':'] + t));
    SpellsParts(s, f + 1, k, [':'] + t);
    SpellsParts(s, f + 1 + |k|, [':'], t);
    SpellsAt(s, f, ['\"'], 0);
    SpellsAt(s, f + 1 + |k|, [':'], 0);
  }

  /** A backslash is inside a printed string value that starts at o: read from there, it ends before a delimiter. */
  ghost predicate InStringAt(s: Bytes, o: nat, x: nat) {
    && 0 < o < x && o < |s| && s[o] == '\"' && s[o - 1] != '\\'
    && ReadString(s, o).Ok? && x < ReadString(s, o).p - 1 && Delim(At(s, ReadString(s, o).p))
  }

  /** The key k is printed at f, behind a brace or comma. */
  ghost predicate KeyAt(s: Bytes, f: nat, k: Bytes) {
    0 < f < |s| && s[f] == '\"' && (s[f - 1] == '{' || s[f - 1] == ',') && Spells(s, f + 1, k + ['\"'])
  }

  /** A backslash is in a string value that starts at f, or in the key k of v that is printed at f. */
  ghost predicate Located(s: Bytes, v: Node, x: nat, f: nat, key: Option<Bytes>) {
    match key
    case None => InStringAt(s, f, x)
    case Some(k) => DeepKey(v, k) && KeyAt(s, f, k) && f < x <= f + |k|
  }

  /** Every backslash in a printed value is in one or the other. */
  lemma {:induction false} ValueLocated(v: Node, s: Bytes, p: nat, x: nat) returns (f: nat, key: Option<Bytes>)
    requires Sane(v) && Spells(s, p, Text(v)) && 0 < p && s[p - 1] != '\\' && Delim(At(s, p + |Text(v)|))
    requires p <= x < p + |Text(v)| && s[x] == '\\'
    ensures Located(s, v, x, f, key)
    decreases v, Width(v) + 2
  {
    if v.Str? {
      StringBackslash(v.s, s, p, x);
      f, key := p, None;
    } else if v.Obj? {
      f, key := ObjectLocated(v, s, p, x);
    } else if v.Arr? {
      BracketAndItems(v, s, p);
      SpellsAt(s, p, Text(v), |Text(v)| - 1);
      hide Text, ItemsText, Sane, Located;
      f, key := ItemsLocated(v, 0, s, p + 1, x);
    } else {
      SpellsAt(s, p, Text(v), x - p);
      NoBackslash(v, x - p);
    }
  }

  lemma LocatedInside(s: Bytes, u: Node, v: Node, x: nat, f: nat, key: Option<Bytes>)
    requires Located(s, u, x, f, key) && forall k :: DeepKey(u, k) ==> DeepKey(v, k)
    ensures Located(s, v, x, f, key)
  {
    hide InStringAt, KeyAt;
  }

  lemma StringBackslash(t: Bytes, s: Bytes, p: nat, x: nat)
    requires NoNul(t) && Spells(s, p, Text(Str(t))) && 0 < p && s[p - 1] != '\\' && Delim(At(s, p + |Text(Str(t))|))
    requires p <= x < p + |Text(Str(t))| && s[x] == '\\'
    ensures InStringAt(s, p, x)
  {
    hide NoNul, Unescape, EscapedAll;
    StringText(t);
    var w := EscapedAll(t) + ['\"'];
    SpellsParts(s, p, ['\"'], w);
    SpellsAt(s, p, ['\"'], 0);
    SpellsAt(s, p + 1, w, |w| - 1);
    StringRound(s, p + 1, t, []);
    ReadsString(s, p, p + 1 + |w|, [] + t);
  }

  lemma NoBackslash(v: Node, i: nat)
    requires (v.Num? || v == Null || v == False || v == True) && Sane(v) && i < |Text(v)|
    ensures Text(v)[i] != '\\'
  {
    if v.Num? {
      NumberHead(v.raw);
      NumberChars(v.raw);
    }
  }

  /** What a number lexeme is made of. */
  predicate NumberChar(c: Byte) {
    Digit(c) || c == '+' || c == '-' || c == '.' || c == 'e' || c == 'E'
  }

  lemma NumberChars(w: Bytes)
    requires NumEnd(w, 0) == Some(|w|)
    ensures forall i :: 0 <= i < |w| ==> NumberChar(w[i])
  {
    NumberSpan(w, 0);
    forall i | 0 <= i < |w| ensures NumberChar(w[i]) { assert At(w, i) == w[i]; }
  }

  lemma NumberSpan(s: Bytes, p: nat)
    requires NumEnd(s, p).Some?
    ensures forall i :: p <= i < NumEnd(s, p).value ==> NumberChar(At(s, i))
  {
    var a := Sign(s, p);
    var b := Digits(s, a);
    var c := if At(s, b) == '.' then Digits(s, b + 1) else b;
    DigitsAre(s, a);
    DigitsAre(s, b + 1);
    DigitsAre(s, Sign(s, c + 1));
    hide Digits;
  }

  lemma {:induction false} ObjectLocated(n: Node, s: Bytes, p: nat, x: nat) returns (f: nat, key: Option<Bytes>)
    requires n.Obj? && Sane(n) && Spells(s, p, Text(n)) && p <= x < p + |Text(n)| && s[x] == '\\'
    ensures Located(s, n, x, f, key)
    decreases n, 1
  {
    BraceAndFields(n, s, p);
    TextEnds(n, s, p);
    hide Text, FieldsText, Spells;
    var j, at := FieldOfBackslash(n, 0, true, s, p + 1, x);
    f, key := FieldLocated(n, s, j, at, x);
  }

  lemma {:induction false} FieldLocated(n: Node, s: Bytes, j: nat, at: nat, x: nat) returns (f: nat, key: Option<Bytes>)
    requires n.Obj? && Sane(n) && FieldAt(n, s, j, at) && at <= x < at + |FieldText(n.table[j].value)|
    requires x < |s| && s[x] == '\\'
    ensures Located(s, n, x, f, key)
    decreases n, 0
  {
    var e := n.table[j].value;
    assert e.val < n;
    FieldParts(s, at, e);
    QuoteAt(s, at + 1, e.key);
    hide Text, FieldText, Spells, Delim, InStringAt;
    if x <= at + |e.key| {
      f, key := at, Some(e.key);
    } else {
      f, key := ValueLocated(e.val, s, at + |e.key| + 3, x);
      hide Sane, Located;
      LocatedInside(s, e.val, n, x, f, key);
    }
  }

  /** The last byte of an object or array is its bracket. */
  lemma TextEnds(n: Node, s: Bytes, p: nat)
    requires (n.Obj? || n.Arr?) && Spells(s, p, Text(n))
    ensures p + |Text(n)| <= |s| && |Text(n)| >= 2 && s[p] != '\\' && s[p + |Text(n)| - 1] != '\\'
  {
    SpellsAt(s, p, Text(n), |Text(n)| - 1);
    SpellsAt(s, p, Text(n), 0);
  }

  lemma {:induction false} ItemsLocated(n: Node, i: nat, s: Bytes, p: nat, x: nat) returns (f: nat, key: Option<Bytes>)
    requires n.Arr? && Sane(n) && i <= |n.items| && Spells(s, p, ItemsText(n, i) + [']'])
    requires 0 < p && s[p - 1] != '\\' && p <= x <= p + |ItemsText(n, i)| && s[x] == '\\'
    ensures Located(s, n, x, f, key)
    decreases n, |n.items| - i
  {
    hide *;
    if i == |n.items| {
      ItemsEnd(n, s, p);
    } else {
      ItemPlaced(n, i, s, p);
      SaneItem(n, i);
      var q := if i == 0 then p else p + 1;
      var v := q + |Text(n.items[i])|;
      if x < v {
        f, key := ValueLocated(n.items[i], s, q, x);
        LocatedInside(s, n.items[i], n, x, f, key);
      } else {
        f, key := ItemsLocated(n, i + 1, s, v, x);
      }
    }
  }

  lemma ItemsEnd(n: Node, s: Bytes, p: nat)
    requires n.Arr? && Spells(s, p, ItemsText(n, |n.items|) + [']'])
    ensures |ItemsText(n, |n.items|)| == 0 && p < |s| && s[p] == ']'
  {
    assert ItemsText(n, |n.items|) + [']'] == [']'];
    hide ItemsText;
    assert s[p..p + 1][0] == s[p];
  }

  lemma SaneItem(n: Node, i: nat)
    requires n.Arr? && Sane(n) && i < |n.items|
    ensures Sane(n.items[i]) && n.items[i] < n && forall k :: DeepKey(n.items[i], k) ==> DeepKey(n, k)
  {
  }

  lemma ItemsAt(n: Node, i: nat, s: Bytes, p: nat)
    requires n.Arr? && i < |n.items| && Spells(s, p, ItemsText(n, i) + [']'])
    ensures var w := Text(n.items[i]); var q := if i == 0 then p else p + 1;
      && Spells(s, q, w + (ItemsText(n, i + 1) + [']'])) && (i > 0 ==> p < |s| && s[p] == ',')
      && |ItemsText(n, i)| == (q - p) + |w| + |ItemsText(n, i + 1)|
  {
    hide *;
    ItemsSplit(n, i);
    if i > 0 {
      CommaThen(s, p, Text(n.items[i]) + (ItemsText(n, i + 1) + [']']));
    }
  }

  lemma ItemPlaced(n: Node, i: nat, s: Bytes, p: nat)
    requires n.Arr? && Sane(n) && i < |n.items| && Spells(s, p, ItemsText(n, i) + [']']) && 0 < p
    requires s[p - 1] != '\\'
    ensures var q := if i == 0 then p else p + 1;
      var v := q + |Text(n.items[i])|;
      && Spells(s, q, Text(n.items[i])) && s[q - 1] != '\\' && Delim(At(s, v)) && (i > 0 ==> s[p] == ',')
      && Spells(s, v, ItemsText(n, i + 1) + [']']) && p + |ItemsText(n, i)| == v + |ItemsText(n, i + 1)|
      && q < v <= |s| && s[v - 1] != '\\'
  {
    hide *;
    var w, rest := Text(n.items[i]), ItemsText(n, i + 1) + [']'];
    SaneItem(n, i);
    var q := if i == 0 then p else p + 1;
    ItemsAt(n, i, s, p);
    SpellsParts(s, q, w, rest);
    MarkAfter(n, i, s, q + |w|);
    ItemEnds(n.items[i], s, q);
  }

  lemma ItemEnds(v: Node, s: Bytes, p: nat)
    requires Sane(v) && Spells(s, p, Text(v))
    ensures p < p + |Text(v)| <= |s| && s[p + |Text(v)| - 1] != '\\'
  {
    ValueEnds(v);
    hide Text, Sane;
    SpellsAt(s, p, Text(v), |Text(v)| - 1);
  }

  lemma SpellsFits(s: Bytes, p: nat, w: Bytes)
    requires Spells(s, p, w)
    ensures p + |w| <= |s|
  {
  }

  /** No printed value ends in a backslash. */
  lemma ValueEnds(v: Node)
    requires Sane(v)
    ensures |Text(v)| > 0 && Text(v)[|Text(v)| - 1] != '\\'
  {
    if v.Num? {
      NumberHead(v.raw);
      NumberChars(v.raw);
    }
  }

  // ---- a special byte of a key read comes from a printed key ----------------------------------------

  lemma SpecialFromKey(n: Node, a: nat, b: nat, d: Bytes, x: nat) returns (f: nat, k: Bytes)
    requires n.Obj? && Sane(n) && KeyToken(Text(n), a, b, d)
    requires a < x < b - 1 && x < |Text(n)| && Text(n)[x] == '\\'
    ensures DeepKey(n, k) && KeyAt(Text(n), f, k) && f < x <= f + |k| && f <= a
  {
    var s := Text(n);
    assert Spells(s, 0, s);
    hide Text, Sane, Spells, Unescape, Skip;
    var key;
    f, key := ObjectLocated(n, s, 0, x);
    if key.None? {
      NotFromString(s, a, b, d, x, f);
    } else {
      k := key.value;
      if a < f { QuoteAfterBackslash(s, a + 1, [], f); }
    }
  }

  lemma QuoteAt(s: Bytes, p: nat, k: Bytes)
    requires Spells(s, p, k + ['\"'])
    ensures p + |k| < |s| && s[p + |k|] == '\"'
  {
    SpellsParts(s, p, k, ['\"']);
    SpellsAt(s, p + |k|, ['\"'], 0);
  }

  /** A key that is read never reaches into a string value. */
  lemma NotFromString(s: Bytes, a: nat, b: nat, d: Bytes, x: nat, o: nat)
    requires KeyToken(s, a, b, d) && a < x < b - 1
    ensures !InStringAt(s, o, x)
  {
    hide Unescape;
    if InStringAt(s, o, x) {
      if a < o {
        QuoteAfterBackslash(s, a + 1, [], o);
      } else if o < a {
        QuoteAfterBackslash(s, o + 1, [], a);
      } else {
        NoSkip(s, b);
      }
    }
  }

  // ---- the last special byte of a key -----------------------------------------------------------------

  /** How far a key goes up to its last quote or backslash; 0 if it has none. */
  function Reach(k: Bytes): (r: nat)
    ensures r <= |k| && (r > 0 ==> Special(k[r - 1])) && forall i :: r <= i < |k| ==> !Special(k[i])
  {
    if k == [] then 0 else if Special(k[|k| - 1]) then |k| else Reach(k[..|k| - 1])
  }

  /**
   * If a key read up to NUL is l, then the printed key it was read from goes at least as far; if no
   * further, it has a backslash there, and if l has one there, too, it is longer than l.
   */
  lemma Longer(n: Node, a: nat, b: nat, d: Bytes, l: Bytes) returns (k: Bytes)
    requires n.Obj? && Sane(n) && KeyToken(Text(n), a, b, d) && l <= d && Reach(l) > 0
    requires forall k :: DeepKey(n, k) ==> NoNul(k)
    ensures DeepKey(n, k) && |k| <= |Text(n)| && Reach(l) <= Reach(k)
    ensures Reach(l) == Reach(k) ==> k[Reach(k) - 1] == '\\' && (l[Reach(l) - 1] == '\\' ==> |l| < |k|)
  {
    var s, e := Text(n), Reach(l) - 1;
    assert d[e] == l[e];
    TokenUnescapes(s, a, b, d);
    hide Text, Unescape, Reach, Piece, KeyToken, Sane, NoNul, DeepKey;
    var x, before := Source(s, a + 1, [], e);
    var f;
    f, k := SpecialFromKey(n, a, b, d, x);
    hide Spells;
    KeyFits(s, f + 1, k);
    Compare(s, f + 1, k, x, before, d, b, l, a);
  }

  lemma TokenUnescapes(s: Bytes, a: nat, b: nat, d: Bytes)
    requires KeyToken(s, a, b, d)
    ensures a < |s| && Unescape(s, a + 1, []) == Ok(b, d)
  {
    hide Unescape;
  }

  /** The key k is printed at p; at x in it an escape gives the last special byte of l. */
  lemma Compare(s: Bytes, p: nat, k: Bytes, x: nat, before: Bytes, d: Bytes, b: nat, l: Bytes, a: nat)
    requires Spells(s, p, k + ['\"']) && NoNul(k) && p <= x < p + |k| && x < |s| && s[x] == '\\' && p <= a + 1
    requires Reach(l) > 0 && l <= d && |before| == Reach(l) - 1 <= x - (a + 1)
    requires Unescape(s, x, before) == Ok(b, d) && Piece(s, x).Ok? && Piece(s, x).v == [l[Reach(l) - 1]]
    ensures Reach(l) <= Reach(k)
    ensures Reach(l) == Reach(k) ==> k[Reach(k) - 1] == '\\' && (l[Reach(l) - 1] == '\\' ==> |l| < |k|)
  {
    hide Unescape, Reach, Piece;
    KeyFits(s, p, k);
    SpellsAt(s, p, k, x - p);
    if Reach(l) == Reach(k) && l[Reach(l) - 1] == '\\' {
      HexEscape(s, p, k, x, before, d, b);
    }
  }

  lemma KeyFits(s: Bytes, p: nat, k: Bytes)
    requires Spells(s, p, k + ['\"'])
    ensures Spells(s, p, k) && |k| <= |s|
  {
    SpellsParts(s, p, k, ['\"']);
  }

  /** A backslash read at the last backslash of the key must be spelled in hex, which shortens the key. */
  lemma HexEscape(s: Bytes, p: nat, k: Bytes, x: nat, before: Bytes, d: Bytes, b: nat)
    requires Spells(s, p, k + ['\"']) && NoNul(k) && p <= x < p + |k| && x - p == Reach(k) - 1 && |before| == x - p
    requires x < |s| && s[x] == '\\' && Unescape(s, x, before) == Ok(b, d) && Piece(s, x).Ok? && Piece(s, x).v == ['\\']
    ensures |d| < |k|
  {
    hide *;
    var i := x + 6 - p;
    HexRead(s, p, k, x, before);
    SpellsRest(s, p, k, i);
    PlainRest(k, i);
    KeyRound(s, x + 6, k[i..], before + ['\\']);
    assert d == before + ['\\'] + k[i..];
  }

  lemma HexRead(s: Bytes, p: nat, k: Bytes, x: nat, before: Bytes)
    requires Spells(s, p, k + ['\"']) && p <= x < p + |k| && x - p == Reach(k) - 1
    requires x < |s| && s[x] == '\\' && Unescape(s, x, before).Ok? && Piece(s, x).Ok? && Piece(s, x).v == ['\\']
    ensures x + 6 <= p + |k| && Unescape(s, x, before) == Unescape(s, x + 6, before + ['\\'])
  {
    hide *;
    KeyFits(s, p, k);
    QuoteAt(s, p, k);
    NextNotSpecial(s, p, k, x);
    HexPiece(s, x, p + |k|);
    BackslashNotQuote(s, x);
    UnescapeStep(s, x, before);
  }

  lemma BackslashNotQuote(s: Bytes, x: nat)
    requires x < |s| && s[x] == '\\'
    ensures At(s, x) != '\"'
  {
  }

  /** Behind the last special byte a key is plain. */
  lemma PlainRest(k: Bytes, i: nat)
    requires NoNul(k) && Reach(k) <= i <= |k|
    ensures PlainKey(k[i..])
  {
    hide Reach;
  }

  lemma NextNotSpecial(s: Bytes, p: nat, k: Bytes, x: nat)
    requires Spells(s, p, k) && p <= x < p + |k| && x - p == Reach(k) - 1 && p + |k| < |s| && s[p + |k|] == '\"'
    ensures x + 1 < |s| && s[x + 1] != '\\'
  {
    hide Reach;
    if x + 1 < p + |k| { SpellsAt(s, p, k, x + 1 - p); }
  }

  /** Behind the backslash stand u and four digits, all before the next quote. */
  lemma HexPiece(s: Bytes, x: nat, q: nat)
    requires x + 1 < |s| && s[x] == '\\' && s[x + 1] != '\\' && Piece(s, x).Ok? && Piece(s, x).v == ['\\']
    requires x < q < |s| && s[q] == '\"'
    ensures Piece(s, x).p == x + 6 <= q
  {
    HexDigits(s, x + 2, 4, 0);
  }

  lemma SpellsRest(s: Bytes, p: nat, k: Bytes, i: nat)
    requires Spells(s, p, k + ['\"']) && i <= |k|
    ensures Spells(s, p + i, k[i..] + ['\"'])
  {
    assert k + ['\"'] == k[..i] + (k[i..] + ['\"']);
    SpellsParts(s, p, k[..i], k[i..] + ['\"']);
  }

  // ---- the decoder passes no NUL ----------------------------------------------------------------------

  ghost predicate CleanTo(s: Bytes, p: nat, q: nat) {
    q <= |s| && forall i :: p <= i < q ==> s[i] != '\0'
  }

  lemma {:induction false} SkipClean(s: Bytes, p: nat)
    requires p <= |s|
    ensures CleanTo(s, p, Skip(s, p))
    decreases |s| - p
  {
    if Space(At(s, p)) { SkipClean(s, p + 1); }
  }

  lemma CleanOn(s: Bytes, p: nat, q: nat, r: nat)
    requires CleanTo(s, p, q) && CleanTo(s, q, r)
    ensures CleanTo(s, p, r)
  {
  }

  lemma CleanOne(s: Bytes, p: nat)
    requires At(s, p) != '\0'
    ensures CleanTo(s, p, p + 1)
  {
  }

  lemma {:induction false} NodeClean(s: Bytes, p: nat)
    requires p <= |s| && DecodeNode(s, p).Ok?
    ensures CleanTo(s, p, DecodeNode(s, p).p)
    decreases |s| - p, 2
  {
    var q := Skip(s, p);
    SkipClean(s, p);
    NodeSkips(s, p);
    hide CleanTo, DecodeNode, DecodeFields, DecodeItems;
    if At(s, q) == '{' {
      ObjectNode(s, q);
      CleanOne(s, q);
      FieldsClean(s, q + 1, []);
      CleanOn(s, q, q + 1, DecodeNode(s, q).p);
    } else if At(s, q) == '[' {
      ArrayNode(s, q);
      CleanOne(s, q);
      ItemsClean(s, q + 1, []);
      CleanOn(s, q, q + 1, DecodeNode(s, q).p);
    } else {
      OtherClean(s, q);
    }
    CleanOn(s, p, q, DecodeNode(s, p).p);
  }

  lemma OtherClean(s: Bytes, p: nat)
    requires p <= |s| && !Space(At(s, p)) && At(s, p) != '{' && At(s, p) != '[' && DecodeNode(s, p).Ok?
    ensures CleanTo(s, p, DecodeNode(s, p).p)
  {
    NoSkip(s, p);
    WordClean(s, p, NULL_TEXT);
    WordClean(s, p, FALSE_TEXT);
    WordClean(s, p, TRUE_TEXT);
    if At(s, p) == '\"' {
      StringClean(s, p);
    } else if Digit(At(s, p)) || At(s, p) == '+' || At(s, p) == '-' {
      NumberSpan(s, p);
      forall i | p <= i < NumEnd(s, p).value ensures s[i] != '\0' { assert At(s, i) == s[i]; }
    }
    hide DecodeFields, DecodeItems, ReadString, NumEnd;
  }

  lemma WordClean(s: Bytes, p: nat, w: Bytes)
    requires NoNul(w)
    ensures Spells(s, p, w) ==> CleanTo(s, p, p + |w|)
  {
    if Spells(s, p, w) {
      forall i | p <= i < p + |w| ensures s[i] != '\0' { SpellsAt(s, p, w, i - p); }
    }
  }

  lemma StringClean(s: Bytes, p: nat)
    requires p <= |s| && ReadString(s, p).Ok?
    ensures CleanTo(s, p, ReadString(s, p).p)
  {
    ReadShrinks(s, p + 1, []);
  }

  lemma {:induction false} ItemsClean(s: Bytes, p: nat, items: seq<Node>)
    requires p <= |s| && DecodeItems(s, p, items).Ok?
    ensures CleanTo(s, p, DecodeItems(s, p, items).p)
    decreases |s| - p, 3
  {
    hide DecodeItems, DecodeNode, CleanTo;
    ItemsUnfold(s, p, items);
    var q := Skip(s, p);
    SkipClean(s, p);
    if At(s, q) == ']' {
      CleanOne(s, q);
      CleanOn(s, p, q, q + 1);
    } else {
      var v := DecodeNode(s, q);
      NodeClean(s, q);
      CleanOn(s, p, q, v.p);
      var e := Skip(s, v.p);
      MarkClean(s, p, v.p);
      if At(s, e) == ',' {
        ItemsClean(s, e + 1, items + [v.v]);
        CleanOn(s, p, e + 1, DecodeItems(s, p, items).p);
      }
    }
  }

  /** Spaces and one more byte. */
  lemma MarkClean(s: Bytes, p: nat, q: nat)
    requires p <= q <= |s| && CleanTo(s, p, q) && At(s, Skip(s, q)) != '\0'
    ensures CleanTo(s, p, Skip(s, q) + 1)
  {
    SkipClean(s, q);
  }

  lemma {:induction false} FieldsClean(s: Bytes, p: nat, t: Table<Node>)
    requires p <= |s| && DecodeFields(s, p, t).Ok?
    ensures CleanTo(s, p, DecodeFields(s, p, t).p)
    decreases |s| - p, 3
  {
    hide DecodeFields, DecodeNode, ReadString, Add, Hash, CleanTo;
    FieldsUnfold(s, p, t);
    var a := Skip(s, p);
    SkipClean(s, p);
    if At(s, a) == '}' {
      CleanOne(s, a);
      CleanOn(s, p, a, a + 1);
    } else {
      var q, key := ReadString(s, a).p, ReadString(s, a).v;
      StringClean(s, a);
      CleanOn(s, p, a, q);
      MarkClean(s, p, q);
      var c := Skip(s, q) + 1;
      var v := DecodeNode(s, Skip(s, c));
      SkipClean(s, c);
      CleanOn(s, p, c, Skip(s, c));
      NodeClean(s, Skip(s, c));
      CleanOn(s, p, Skip(s, c), v.p);
      MarkClean(s, p, v.p);
      var e := Skip(s, v.p);
      if At(s, e) == ',' {
        FieldsClean(s, e + 1, Add(t, Entry(Hash(key), key, v.v)));
        CleanOn(s, p, e + 1, DecodeFields(s, p, t).p);
      }
    }
  }

  // ---- the exact condition ------------------------------------------------------------------------------

  /** A printed field is in the text. */
  lemma {:induction false} FieldIsPrinted(n: Node, i: nat, first: bool, s: Bytes, p: nat, j: nat) returns (f: nat)
    requires n.Obj? && i <= j < |n.table| && n.table[j].Some? && Spells(s, p, FieldsText(n, i, first) + ['}'])
    requires 0 < p && (first ==> s[p - 1] == '{')
    ensures FieldAt(n, s, j, f)
    decreases j - i
  {
    hide FieldText, Delim;
    if n.table[i].None? {
      f := FieldIsPrinted(n, i + 1, first, s, p, j);
    } else {
      FieldPlaced(n, i, first, s, p);
      f := if first then p else p + 1;
      if i < j { f := FieldIsPrinted(n, i + 1, false, s, f + |FieldText(n.table[i].value)|, j); }
    }
  }

  lemma {:induction false} ItemIsPrinted(n: Node, i: nat, s: Bytes, p: nat, j: nat) returns (q: nat)
    requires n.Arr? && i <= j < |n.items| && Spells(s, p, ItemsText(n, i) + [']']) && 0 < p
    ensures 0 < q && Spells(s, q, Text(n.items[j]))
    decreases j - i
  {
    hide *;
    var w, rest := Text(n.items[i]), ItemsText(n, i + 1) + [']'];
    q := if i == 0 then p else p + 1;
    ItemsAt(n, i, s, p);
    SpellsParts(s, q, w, rest);
    if i < j { q := ItemIsPrinted(n, i + 1, s, q + |w|, j); }
  }

  /** Every key, at any depth, is in the text. */
  lemma {:induction false} KeyIsPrinted(n: Node, s: Bytes, p: nat, k: Bytes) returns (f: nat)
    requires Spells(s, p, Text(n)) && DeepKey(n, k)
    ensures 0 < f && Spells(s, f, k + ['\"'])
    decreases n
  {
    hide *;
    var j := DeepPlace(n, k);
    if n.Obj? {
      f := PrintedField(n, s, p, j);
      if n.table[j].value.key == k {
        f := f + 1;
      } else {
        f := KeyIsPrinted(n.table[j].value.val, s, f + |n.table[j].value.key| + 3, k);
      }
    } else {
      f := PrintedItem(n, s, p, j);
      f := KeyIsPrinted(n.items[j], s, f, k);
    }
  }

  /** The field or item that has the key. */
  lemma DeepPlace(n: Node, k: Bytes) returns (j: nat)
    requires DeepKey(n, k)
    ensures n.Obj? || n.Arr?
    ensures n.Obj? ==>
      && j < |n.table| && n.table[j].Some? && n.table[j].value.val < n
      && (n.table[j].value.key == k || DeepKey(n.table[j].value.val, k))
    ensures n.Arr? ==> j < |n.items| && n.items[j] < n && DeepKey(n.items[j], k)
  {
    if n.Obj? {
      j :| 0 <= j < |n.table| && n.table[j].Some? &&
        (n.table[j].value.key == k || DeepKey(n.table[j].value.val, k));
    } else {
      j :| 0 <= j < |n.items| && DeepKey(n.items[j], k);
    }
  }

  lemma PrintedField(n: Node, s: Bytes, p: nat, j: nat) returns (f: nat)
    requires n.Obj? && j < |n.table| && n.table[j].Some? && Spells(s, p, Text(n))
    ensures var e := n.table[j].value; Spells(s, f + 1, e.key + ['\"']) && Spells(s, f + |e.key| + 3, Text(e.val))
  {
    BraceAndFields(n, s, p);
    SpellsFits(s, p, Text(n));
    hide Text, FieldText, FieldsText, Spells;
    f := FieldIsPrinted(n, 0, true, s, p + 1, j);
    FieldParts(s, f, n.table[j].value);
  }

  lemma PrintedItem(n: Node, s: Bytes, p: nat, j: nat) returns (q: nat)
    requires n.Arr? && j < |n.items| && Spells(s, p, Text(n))
    ensures Spells(s, q, Text(n.items[j]))
  {
    BracketAndItems(n, s, p);
    hide Text, ItemsText, Spells;
    q := ItemIsPrinted(n, 0, s, p + 1, j);
  }

  /** All of the text was read, and the result means what was printed. */
  ghost predicate MeantBack(n: Node) {
    var r := DecodeObjectText(Text(n), 0);
    r.Ok? && r.p == |Text(n)| && Meaning(r.v) == Meaning(n)
  }

  lemma KeysHaveNoNul(n: Node, k: Bytes)
    requires n.Obj? && MeantBack(n) && DeepKey(n, k)
    ensures NoNul(k) && |k| <= |Text(n)|
  {
    var s := Text(n);
    TextIsClean(n);
    assert Spells(s, 0, s);
    hide *;
    var f := KeyIsPrinted(n, s, 0, k);
    CleanKey(s, f, k);
  }

  lemma CleanKey(s: Bytes, p: nat, k: Bytes)
    requires Spells(s, p, k + ['\"']) && CleanTo(s, 1, |s|) && p > 0
    ensures NoNul(k) && |k| <= |s|
  {
    KeyFits(s, p, k);
    QuoteAt(s, p, k);
    forall c | 0 <= c < |k| ensures k[c] != '\0' { SpellsAt(s, p, k, c); }
  }

  lemma TextIsClean(n: Node)
    requires n.Obj? && MeantBack(n)
    ensures CleanTo(Text(n), 1, |Text(n)|)
  {
    var s := Text(n);
    assert Spells(s, 0, s);
    BraceAndFields(n, s, 0);
    hide Text, FieldsText, Spells, DecodeFields, CleanTo, Meaning;
    NoSkip(s, 0);
    FieldsClean(s, 1, []);
  }

  lemma KeyHasToken(n: Node, k: Bytes) returns (a: nat, b: nat, d: Bytes)
    requires n.Obj? && Sane(n) && MeantBack(n) && DeepKey(n, k)
    ensures KeyToken(Text(n), a, b, d) && CStr(d) == CStr(k)
  {
    var s := Text(n);
    assert Spells(s, 0, s);
    BraceAndFields(n, s, 0);
    SpellsFits(s, 0, s);
    hide Text, FieldsText, Spells, DecodeFields, CStr, KeyToken, Meaning, DeepKey, Sane;
    NoSkip(s, 0);
    var m := DecodeFields(s, 1, []).v;
    d := SameKeys(n, m, k);
    NoEntries(s);
    FieldsTokened(s, 1, []);
    TableTokened(s, m.table);
    TokenedOne(s, m, d);
    a, b :| KeyToken(s, a, b, d);
  }

  /** A key with a quote or backslash would need ever further or longer ones. */
  lemma {:induction false} NoSpecialKey(n: Node, k: Bytes)
    requires n.Obj? && Sane(n) && MeantBack(n) && DeepKey(n, k) && |k| <= |Text(n)|
    ensures Reach(k) == 0
    decreases |Text(n)| - Reach(k), if Reach(k) > 0 && k[Reach(k) - 1] == '\\' then 0 else 1, |Text(n)| - |k|
  {
    hide MeantBack, Text, KeyToken, Reach, Sane, DeepKey;
    if Reach(k) > 0 {
      var a, b, d := KeyHasToken(n, k);
      forall l | DeepKey(n, l) ensures NoNul(l) { KeysHaveNoNul(n, l); }
      CStrPrefix(k);
      CStrPrefix(d);
      var l := Longer(n, a, b, d, k);
      NoSpecialKey(n, l);
    }
  }

  /**
   * An object is read back, all of its text and with its meaning, if and only if the keys of all objects
   * in it are plain; the decoded object can then also be searched.
   */
  lemma RoundTripExactly(n: Node)
    requires n.Obj? && Sane(n)
    ensures MeantBack(n) <==> AllPlain(n)
    ensures Reads(DecodeObjectText(Text(n), 0), |Text(n)|, n) <==> AllPlain(n)
  {
    if AllPlain(n) {
      PlainIsPrintable(n);
      RoundTrip(n);
    } else if MeantBack(n) {
      hide MeantBack, Text, Reach, DeepKey;
      forall k | DeepKey(n, k) ensures PlainKey(k) {
        KeysHaveNoNul(n, k);
        NoSpecialKey(n, k);
      }
    }
  }

  /** In particular an object with one entry. */
  lemma OneFieldReadBack(h: nat, k: Bytes, v: Node)
    requires Sane(v)
    ensures MeantBack(Obj([Some(Entry(h, k, v))])) <==> PlainKey(k) && AllPlain(v)
  {
    var n := Obj([Some(Entry(h, k, v))]);
    assert n.table[0] == Some(Entry(h, k, v));
    assert forall l :: DeepKey(n, l) <==> l == k || DeepKey(v, l);
    hide MeantBack;
    RoundTripExactly(n);
  }
}
