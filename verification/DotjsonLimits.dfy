/** Exactly which keys, strings and numbers survive printing and decoding. */
module DotjsonLimits {
  import opened Collections
  import opened DotjsonTable
  import opened DotjsonNode
  import opened DotjsonGrammar
  import opened DotjsonDecode
  import opened DotjsonRoundTrip

  // ---- what reading a string does to its bytes --------------------------------------------------

  /** A string that is read ends at a quote, passes no NUL, and stands for no more bytes than it takes. */
  lemma {:induction false} ReadShrinks(s: Bytes, p: nat, acc: Bytes)
    requires p <= |s| && Unescape(s, p, acc).Ok?
    ensures var r := Unescape(s, p, acc);
      && acc <= r.v && |r.v| - |acc| <= r.p - 1 - p
      && forall i :: p <= i < r.p ==> s[i] != '\0'
    decreases |s| - p
  {
    if At(s, p) != '\"' {
      var t := Piece(s, p);
      PieceShrinks(s, p);
      UnescapeStep(s, p, acc);
      hide Piece, Unescape;
      ReadShrinks(s, t.p, acc + t.v);
    }
  }

  lemma UnescapeStep(s: Bytes, p: nat, acc: Bytes)
    requires p <= |s| && At(s, p) != '\"' && Unescape(s, p, acc).Ok?
    ensures p < |s| && Piece(s, p).Ok? && Unescape(s, p, acc) == Unescape(s, Piece(s, p).p, acc + Piece(s, p).v)
  {
    hide Piece;
  }

  /** The piece at p is no shorter than what it stands for, holds no NUL and a quote only after its backslash. */
  ghost predicate Shrinks(s: Bytes, p: nat, t: Dec<Bytes>)
    requires p < |s|
  {
    && t.Ok? && p < t.p <= |s|
    && |t.v| <= t.p - p && (s[p] == '\\' ==> |t.v| < t.p - p) && (s[p] != '\\' ==> t.p == p + 1 && t.v == [s[p]])
    && (forall i :: p <= i < t.p ==> s[i] != '\0')
    && (forall i :: p < i < t.p && s[i] == '\"' ==> i == p + 1 && t.v == ['\"'])
  }

  /** One character stands for itself, an escape for fewer bytes than it takes. */
  lemma PieceShrinks(s: Bytes, p: nat)
    requires p < |s| && s[p] != '\0' && Piece(s, p).Ok?
    ensures Shrinks(s, p, Piece(s, p))
  {
    if s[p] == '\\' && At(s, p + 1) == 'u' {
      UnicodeShrinks(s, p);
    }
  }

  lemma UnicodeShrinks(s: Bytes, p: nat)
    requires p < |s| && s[p] == '\\' && At(s, p + 1) == 'u' && Piece(s, p).Ok?
    ensures Shrinks(s, p, Piece(s, p))
  {
    HexDigits(s, p + 2, 4, 0);
    hide HexRun;
    assert Ordinary(s, p + 2) && Ordinary(s, p + 3) && Ordinary(s, p + 4) && Ordinary(s, p + 5);
  }

  /** A byte that ends neither the text nor a string. */
  predicate Ordinary(s: Bytes, i: nat) {
    i < |s| && s[i] != '\0' && s[i] != '\"'
  }

  lemma HexFirst(s: Bytes, p: nat, n: nat, u: nat)
    requires n > 0 && HexRun(s, p, n, u).Some?
    ensures Hex(At(s, p)).Some? && HexRun(s, p, n, u) == HexRun(s, p + 1, n - 1, 16 * u + Hex(At(s, p)).value)
    ensures Ordinary(s, p)
  {
  }

  lemma {:induction false} HexDigits(s: Bytes, p: nat, n: nat, u: nat)
    requires HexRun(s, p, n, u).Some?
    ensures forall i :: p <= i < p + n ==> Ordinary(s, i)
    decreases n
  {
    if n > 0 {
      HexFirst(s, p, n, u);
      hide HexRun, Hex;
      HexDigits(s, p + 1, n - 1, 16 * u + Hex(At(s, p)).value);
    }
  }

  /** As many bytes out as in means that no escape was read. */
  lemma {:induction false} FullLengthIsPlain(s: Bytes, p: nat, acc: Bytes)
    requires p <= |s| && Unescape(s, p, acc).Ok? && |Unescape(s, p, acc).v| - |acc| == Unescape(s, p, acc).p - 1 - p
    ensures forall i :: p <= i < Unescape(s, p, acc).p - 1 ==> s[i] != '\\'
    decreases |s| - p
  {
    if At(s, p) != '\"' {
      var t := Piece(s, p);
      UnescapeStep(s, p, acc);
      ReadShrinks(s, p, acc);
      PieceShrinks(s, p);
      hide Piece, Unescape;
      ReadShrinks(s, t.p, acc + t.v);
      FullLengthIsPlain(s, t.p, acc + t.v);
    }
  }

  /** A quote that does not end the string follows a backslash and gives a quote further to the front. */
  lemma {:induction false} QuoteMovesUp(s: Bytes, p: nat, acc: Bytes, r: nat) returns (d: nat)
    requires p <= r < |s| && Unescape(s, p, acc).Ok? && r < Unescape(s, p, acc).p - 1 && s[r] == '\"'
    ensures |acc| <= d < |acc| + (r - p) && d < |Unescape(s, p, acc).v| && Unescape(s, p, acc).v[d] == '\"'
    decreases |s| - p
  {
    assert At(s, p) != '\"';
    var t := Piece(s, p);
    UnescapeStep(s, p, acc);
    ReadShrinks(s, p, acc);
    PieceShrinks(s, p);
    hide Piece, Unescape;
    if r < t.p {
      ReadShrinks(s, t.p, acc + t.v);
      d := |acc|;
    } else {
      d := QuoteMovesUp(s, t.p, acc + t.v, r);
    }
  }

  // ---- keys -------------------------------------------------------------------------------------

  /** If the key comes out again, no quote can be in it: each would force another before it. */
  lemma {:induction false} NoQuoteInside(s: Bytes, p: nat, k: Bytes, r: nat)
    requires Spells(s, p, k) && Unescape(s, p, []).Ok? && k <= Unescape(s, p, []).v
    requires p + |k| <= Unescape(s, p, []).p - 1 && r < |k|
    ensures k[r] != '\"'
  {
    if k[r] == '\"' {
      SpellsAt(s, p, k, r);
      var d := QuoteMovesUp(s, p, [], p + r);
      NoQuoteInside(s, p, k, d);
    }
  }

  lemma KeyComesBack(s: Bytes, p: nat, k: Bytes)
    requires Spells(s, p, k + ['\"']) && Unescape(s, p, []).Ok? && k <= Unescape(s, p, []).v
    ensures PlainKey(k)
  {
    SpellsParts(s, p, k, ['\"']);
    SpellsAt(s, p + |k|, ['\"'], 0);
    var r := Unescape(s, p, []);
    ReadShrinks(s, p, []);
    forall i | 0 <= i < |k| ensures k[i] != '\"' && s[p + i] == k[i] {
      NoQuoteInside(s, p, k, i);
      SpellsAt(s, p, k, i);
    }
    if r.p - 1 > p + |k| {
      var d := QuoteMovesUp(s, p, [], p + |k|);
    }
    FullLengthIsPlain(s, p, []);
  }

  /** A printed key is read back, as the key or the start of a longer one, if and only if it is plain. */
  lemma KeyReadBack(s: Bytes, p: nat, k: Bytes)
    requires Spells(s, p, k + ['\"'])
    ensures Unescape(s, p, []).Ok? && k <= Unescape(s, p, []).v <==> PlainKey(k)
    ensures PlainKey(k) ==> Unescape(s, p, []) == Ok(p + |k| + 1, k)
  {
    if PlainKey(k) {
      KeyRound(s, p, k, []);
      NoneLeft(k);
    } else if Unescape(s, p, []).Ok? && k <= Unescape(s, p, []).v {
      KeyComesBack(s, p, k);
    }
  }

  // ---- entries ------------------------------------------------------------------------------------

  /** Behind a value: the entry is added to what was there, and the object ends or goes on. */
  lemma ValueKeep(s: Bytes, p: nat, t: Table<Node>, key: Bytes, val: Node)
    requires Sound(t) && AfterValue(s, p, t, key, val).Ok?
    ensures var e := Entry(Hash(key), key, val);
      var u := Add(t, e);
      && Sound(u) && Contents(u) == Contents(t) + multiset{e}
      && (At(s, Skip(s, p)) == ',' || AfterValue(s, p, t, key, val).v == Obj(u))
      && (At(s, Skip(s, p)) == ',' ==> AfterValue(s, p, t, key, val) == DecodeFields(s, Skip(s, p) + 1, u))
  {
    hide DecodeFields, Sound, Contents, Add, Hash;
    AddKeeps(t, Entry(Hash(key), key, val));
  }

  lemma {:induction false} CStrPrefix(t: Bytes)
    ensures CStr(t) <= t && (|CStr(t)| < |t| ==> t[|CStr(t)|] == '\0')
    ensures NoNul(t) <==> CStr(t) == t
  {
    if t != [] && t[0] != '\0' {
      CStrPrefix(t[1..]);
      assert t == [t[0]] + t[1..];
      assert NoNul(t) ==> NoNul(t[1..]);
    }
  }

  // ---- strings and numbers ------------------------------------------------------------------------

  lemma {:induction false} EscapedToNul(t: Bytes)
    ensures EscapedAll(CStr(t)) == EscapedAll(t)
  {
    if t != [] && t[0] != '\0' {
      assert CStr(t)[1..] == CStr(t[1..]);
      EscapedToNul(t[1..]);
    }
  }

  /** A printed string is read back if and only if it holds no NUL; otherwise the part before it is. */
  lemma StringReadBack(t: Bytes, s: Bytes, p: nat)
    requires Spells(s, p, Text(Str(t)))
    ensures Reads(DecodeNode(s, p), p + |Text(Str(t))|, Str(CStr(t)))
    ensures Reads(DecodeNode(s, p), p + |Text(Str(t))|, Str(t)) <==> NoNul(t)
  {
    hide *;
    SameStringText(t);
    StringNode(CStr(t), s, p);
    ReadsOne(DecodeNode(s, p), p + |Text(Str(t))|, CStr(t), t);
  }

  lemma SameStringText(t: Bytes)
    ensures Text(Str(CStr(t))) == Text(Str(t)) && NoNul(CStr(t)) && (NoNul(t) <==> CStr(t) == t)
  {
    CStrPrefix(t);
    EscapedToNul(t);
    CStrTwice(t);
    CStrPrefix(CStr(t));
    hide CStr, EscapedAll;
  }

  lemma ReadsOne(r: Dec<Node>, q: nat, a: Bytes, b: Bytes)
    requires Reads(r, q, Str(a))
    ensures Reads(r, q, Str(b)) <==> a == b
  {
  }

  lemma {:induction false} CStrTwice(t: Bytes)
    ensures CStr(CStr(t)) == CStr(t)
  {
    if t != [] && t[0] != '\0' {
      assert CStr(t)[1..] == CStr(t[1..]);
      CStrTwice(t[1..]);
    }
  }

  /** A printed number is read back if and only if the decoder takes its lexeme for one number. */
  lemma NumberReadBack(raw: Bytes, s: Bytes, p: nat)
    requires Spells(s, p, CStr(raw)) && Delim(At(s, p + |CStr(raw)|))
    ensures Reads(DecodeNode(s, p), p + |CStr(raw)|, Num(raw)) <==> NumEnd(raw, 0) == Some(|raw|)
  {
    hide DecodeNode, NumEnd, CStr, Spells, Delim, Reads, At;
    if NumEnd(raw, 0) == Some(|raw|) {
      NumberHead(raw);
      NumberNode(raw, s, p);
    } else if Reads(DecodeNode(s, p), p + |CStr(raw)|, Num(raw)) {
      NumberOnly(raw, s, p);
    }
  }

  lemma NumberOnly(raw: Bytes, s: Bytes, p: nat)
    requires Spells(s, p, CStr(raw)) && Delim(At(s, p + |CStr(raw)|))
    requires Reads(DecodeNode(s, p), p + |CStr(raw)|, Num(raw))
    ensures NumEnd(raw, 0) == Some(|raw|)
  {
    hide DecodeNode, CStr, NumEnd, Spells, Delim;
    MeansNumber(s, p, raw);
    CStrPrefix(raw);
    assert Skip(s, p) == p && CStr(raw) == raw;
    NumberShift(s, p, raw);
  }

  lemma MeansNumber(s: Bytes, p: nat, raw: Bytes)
    requires DecodeNode(s, p).Ok? && Meaning(DecodeNode(s, p).v) == VNum(raw)
    ensures var q, r := Skip(s, p), DecodeNode(s, p);
      q <= r.p <= |s| && NumEnd(s, q) == Some(r.p) && s[q..r.p] == raw
  {
    hide DecodeNode, NumEnd, Meaning, DecodeFields, DecodeItems;
    NumberMeans(DecodeNode(s, p).v, raw);
    NodeSkips(s, p);
    var q := Skip(s, p);
    if At(s, q) == '{' {
      ObjectNode(s, q);
      FieldsMakeObject(s, q + 1, []);
    } else if At(s, q) == '[' {
      ArrayNode(s, q);
      ItemsMakeArray(s, q + 1, []);
    } else {
      OtherNode(s, q);
    }
  }

  lemma NodeSkips(s: Bytes, p: nat)
    ensures DecodeNode(s, p) == DecodeNode(s, Skip(s, p))
  {
    NoSkip(s, Skip(s, p));
    hide DecodeFields, DecodeItems, ReadString, NumEnd, Word;
  }

  lemma OtherNode(s: Bytes, p: nat)
    requires !Space(At(s, p)) && At(s, p) != '{' && At(s, p) != '[' && DecodeNode(s, p).Ok? && DecodeNode(s, p).v.Num?
    ensures var r := DecodeNode(s, p); p <= r.p <= |s| && NumEnd(s, p) == Some(r.p) && r.v == Num(s[p..r.p])
  {
    NoSkip(s, p);
    hide DecodeFields, DecodeItems, ReadString, NumEnd;
  }

  lemma NumberMeans(n: Node, raw: Bytes)
    requires Meaning(n) == VNum(raw)
    ensures n == Num(raw)
  {
  }

  lemma {:induction false} FieldsMakeObject(s: Bytes, p: nat, t: Table<Node>)
    requires DecodeFields(s, p, t).Ok?
    ensures DecodeFields(s, p, t).v.Obj?
    decreases |s| - p
  {
    hide DecodeFields, DecodeNode, ReadString, Add, Hash;
    FieldsUnfold(s, p, t);
    if At(s, Skip(s, p)) != '}' {
      var q, key := ReadString(s, Skip(s, p)).p, ReadString(s, Skip(s, p)).v;
      var v := DecodeNode(s, Skip(s, Skip(s, q) + 1));
      var e := Skip(s, v.p);
      if At(s, e) == ',' { FieldsMakeObject(s, e + 1, Add(t, Entry(Hash(key), key, v.v))); }
    }
  }

  lemma {:induction false} ItemsMakeArray(s: Bytes, p: nat, items: seq<Node>)
    requires DecodeItems(s, p, items).Ok?
    ensures DecodeItems(s, p, items).v.Arr?
    decreases |s| - p
  {
    hide DecodeItems, DecodeNode;
    ItemsUnfold(s, p, items);
    if At(s, Skip(s, p)) != ']' {
      var v := DecodeNode(s, Skip(s, p));
      var e := Skip(s, v.p);
      if At(s, e) == ',' { ItemsMakeArray(s, e + 1, items + [v.v]); }
    }
  }
}
