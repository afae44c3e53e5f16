/** The texts of RFC 8259, and which of them the tokenizer reads as their trees. */
module JsonStandard {
  import opened Collections
  import opened JsonTokens
  import opened JsonTree
  import opened JsonSound
  import opened JsonComplete

  // ---- section 7: strings -------------------------------------------------------------------------

  predicate IsHex(c: char) {
    IsDigit(c) || 'a' <= c <= 'f' || 'A' <= c <= 'F'
  }

  /** What follows the quote: plain characters, two-character escapes and \u with four hexadecimal digits. */
  predicate RfcChars(x: string) {
    if x == [] then true
    else if x[0] == '\\' then
      if |x| >= 2 && x[1] == 'u' then |x| >= 6 && (forall k :: 2 <= k < 6 ==> IsHex(x[k])) && RfcChars(x[6..])
      else |x| >= 2 && x[1] in "\"\\/bfnrt" && RfcChars(x[2..])
    else x[0] >= ' ' && x[0] != '"' && RfcChars(x[1..])
  }

  predicate RfcString(x: string) {
    |x| >= 2 && x[0] == '"' && x[|x| - 1] == '"' && RfcChars(x[1..|x| - 1])
  }

  /** Inside a string a quote follows a backslash. */
  lemma {:induction false} QuotesEscaped(x: string, j: nat)
    requires RfcChars(x) && j < |x| && x[j] == '"'
    ensures j > 0 && x[j - 1] == '\\'
    decreases |x|
  {
    var n := if x[0] != '\\' then 1 else if x[1] == 'u' then 6 else 2;
    if j >= n {
      QuotesEscaped(x[n..], j - n);
    }
  }

  lemma StringOkExactly(x: string)
    requires RfcString(x)
    ensures StringOk(x) <==> x[|x| - 2] != '\\'
  {
    forall j | 1 <= j < |x| - 1 && x[j] == '"' ensures x[j - 1] == '\\' {
      QuotesEscaped(x[1..|x| - 1], j - 1);
    }
  }

  /** A string of the standard is scanned to its end exactly when its last character is not an escaped backslash. */
  lemma LookBackExactly(data: string, i: nat, x: string)
    requires RfcString(x) && At(data, i, x)
    ensures ScanString(data, i + 1) == Ok(i + |x|) <==> x[|x| - 2] != '\\'
  {
    hide RfcChars, ScanString;
    StringOkExactly(x);
    AtFirst(data, i, x);
    if x[|x| - 2] != '\\' {
      StringComplete(data, i, i + 1, x);
    } else if ScanString(data, i + 1) == Ok(i + |x|) {
      StringSound(data, i, i + 1);
    }
  }

  // ---- section 6: numbers -------------------------------------------------------------------------

  datatype Exponent = Exponent(letter: char, sign: string, digits: string)

  datatype RfcNum = RfcNum(neg: bool, int_: string, frac: Option<string>, exp: Option<Exponent>)

  predicate RfcNumOk(n: RfcNum) {
    && Digits(n.int_) && (n.int_[0] == '0' ==> |n.int_| == 1)
    && (n.frac.Some? ==> Digits(n.frac.value))
    && (n.exp.Some? ==>
          && (n.exp.value.letter == 'e' || n.exp.value.letter == 'E') && Digits(n.exp.value.digits)
          && (n.exp.value.sign == "" || n.exp.value.sign == "-" || n.exp.value.sign == "+"))
  }

  /** The number up to its exponent. */
  function Mantissa(n: RfcNum): string {
    (if n.neg then "-" else "") + n.int_ + (if n.frac.None? then "" else "." + n.frac.value)
  }

  function ExponentText(n: RfcNum): string {
    if n.exp.None? then "" else [n.exp.value.letter] + n.exp.value.sign + n.exp.value.digits
  }

  function RfcNumText(n: RfcNum): string {
    Mantissa(n) + ExponentText(n)
  }

  ghost predicate RfcNumber(x: string) {
    exists n: RfcNum :: RfcNumOk(n) && RfcNumText(n) == x
  }

  predicate HasPlus(n: RfcNum) {
    n.exp.Some? && n.exp.value.sign == "+"
  }

  lemma PlusOnlyInExponent(n: RfcNum)
    requires RfcNumOk(n)
    ensures '+' in RfcNumText(n) <==> HasPlus(n)
  {
    assert '+' !in Mantissa(n);
    if n.exp.Some? {
      assert '+' in ExponentText(n) <==> '+' in n.exp.value.sign;
    }
  }

  /** A number of the code's grammar that is also one of the standard, without a plus sign. */
  function Unsigned(n: RfcNum): Num {
    Num(n.neg, n.int_, n.frac,
        if n.exp.None? then None else Some((n.exp.value.letter, n.exp.value.sign == "-", n.exp.value.digits)))
  }

  lemma UnsignedText(n: RfcNum)
    requires RfcNumOk(n) && !HasPlus(n)
    ensures NumOk(Unsigned(n)) && NumText(Unsigned(n)) == RfcNumText(n)
  {
    var m := Unsigned(n);
    assert Mantissa(n) == Sign(m) + m.int_ + FracText(m);
    assert ExponentText(n) == ExpText(m);
  }

  lemma NoPlus(n: Num)
    requires NumOk(n)
    ensures '+' !in NumText(n)
  {
    assert '+' !in FracText(n);
    assert '+' !in ExpText(n);
  }

  /** A number of the standard is one of the code's exactly when it has no plus sign. */
  lemma NumberOkExactly(x: string)
    requires RfcNumber(x)
    ensures NumberOk(x) <==> '+' !in x
  {
    hide RfcNumText, RfcNumOk, NumText, NumOk, HasPlus;
    var n: RfcNum :| RfcNumOk(n) && RfcNumText(n) == x;
    PlusOnlyInExponent(n);
    if '+' !in x {
      UnsignedText(n);
    }
    if NumberOk(x) {
      var m: Num :| NumOk(m) && NumText(m) == x;
      NoPlus(m);
    }
  }

  lemma IntScans(data: string, i: nat, neg: bool, d: string)
    requires Digits(d) && At(data, i, if neg then "-" else "") && At(data, if neg then i + 1 else i, d)
    ensures i < |data| && neg == (data[i] == '-')
    ensures var a := if neg then i + 1 else i;
      a + |d| <= |data| && ScanNumber(data, a, false, false) == ScanDigits(data, a + |d|, false, false)
  {
    hide ScanNumber, ScanDigits, At;
    var a := if neg then i + 1 else i;
    if neg {
      AtFirst(data, i, "-");
    }
    AtFirst(data, a, d);
    NumberDigits(data, a, d, false, false);
  }

  lemma FractionScans(data: string, b: nat, d: string)
    requires Digits(d) && At(data, b, "." + d)
    ensures b + 1 + |d| <= |data| && ScanDigits(data, b, false, false) == ScanDigits(data, b + 1 + |d|, true, false)
  {
    AtFirst(data, b, "." + d);
    assert ("." + d)[1..] == d;
    assert ScanDigits(data, b, false, false) == ScanNumber(data, b + 1, true, false);
    hide *;
    NumberDigits(data, b + 1, d, true, false);
  }

  /** The digits and the fraction before an exponent are passed over. */
  lemma MantissaScans(data: string, i: nat, n: RfcNum)
    requires RfcNumOk(n) && At(data, i, Mantissa(n))
    ensures i < |data| && i + |Mantissa(n)| <= |data|
    ensures ScanNumber(data, if data[i] == '-' then i + 1 else i, false, false) ==
      ScanDigits(data, i + |Mantissa(n)|, n.frac.Some?, false)
  {
    hide ScanNumber, ScanDigits, At, Digits;
    var sign := if n.neg then "-" else "";
    var frac := if n.frac.None? then "" else "." + n.frac.value;
    AtSplit(data, i, sign + n.int_, frac);
    AtSplit(data, i, sign, n.int_);
    IntScans(data, i, n.neg, n.int_);
    if n.frac.Some? {
      FractionScans(data, i + |sign| + |n.int_|, n.frac.value);
    }
  }

  lemma PlusIsBad(data: string, c: nat, f: bool)
    requires c + 1 < |data| && (data[c] == 'e' || data[c] == 'E') && data[c + 1] == '+'
    ensures ScanDigits(data, c, f, false) == Bad
  {
  }

  lemma PlusAt(data: string, c: nat, n: RfcNum)
    requires RfcNumOk(n) && HasPlus(n) && At(data, c, ExponentText(n))
    ensures c + 1 < |data| && (data[c] == 'e' || data[c] == 'E') && data[c + 1] == '+'
  {
    var x := ExponentText(n);
    assert x[0] == n.exp.value.letter && x[1] == '+';
    assert data[c..c + |x|][0] == data[c] && data[c..c + |x|][1] == data[c + 1];
  }

  lemma RfcNumParts(n: RfcNum)
    ensures RfcNumText(n) == Mantissa(n) + ExponentText(n)
  {
    hide Mantissa, ExponentText;
  }

  lemma PlusRefused(data: string, i: nat, n: RfcNum)
    requires RfcNumOk(n) && HasPlus(n) && At(data, i, RfcNumText(n)) && i < |data|
    ensures ScanNumber(data, if data[i] == '-' then i + 1 else i, false, false) == Bad
  {
    hide *;
    var c := i + |Mantissa(n)|;
    RfcNumParts(n);
    AtSplit(data, i, Mantissa(n), ExponentText(n));
    PlusAt(data, c, n);
    MantissaScans(data, i, n);
    PlusIsBad(data, c, n.frac.Some?);
  }

  /** A number of the standard before a delimiter is scanned to its end, or refused exactly when it has a plus sign. */
  lemma PlusExactly(data: string, i: nat, x: string)
    requires RfcNumber(x) && At(data, i, x) && i + |x| < |data| && Delimiter(data[i + |x|])
    ensures (IsDigit(data[i]) || data[i] == '-') && i + (if data[i] == '-' then 1 else 0) <= |data|
    ensures ScanNumber(data, if data[i] == '-' then i + 1 else i, false, false) ==
      if '+' in x then Bad else Ok(i + |x|)
  {
    hide RfcNumText, RfcNumOk, NumText, NumOk, HasPlus, At, ScanNumber, ScanDigits;
    var n: RfcNum :| RfcNumOk(n) && RfcNumText(n) == x;
    PlusOnlyInExponent(n);
    NumberStarts(n);
    AtFirst(data, i, x);
    if '+' in x {
      PlusRefused(data, i, n);
    } else {
      UnsignedText(n);
      NumberScans(data, i, Unsigned(n));
    }
  }

  lemma NumberStarts(n: RfcNum)
    requires RfcNumOk(n)
    ensures |RfcNumText(n)| > 0 && (IsDigit(RfcNumText(n)[0]) || RfcNumText(n)[0] == '-')
  {
    assert RfcNumText(n)[0] == if n.neg then '-' else n.int_[0];
  }

  /** A zero with another digit after it starts the number. */
  predicate LeadingZero(x: string) {
    var d := if x != [] && x[0] == '-' then x[1..] else x;
    |d| >= 2 && d[0] == '0' && IsDigit(d[1])
  }

  /** A number of the code's grammar is one of the standard exactly when no zero leads it. */
  lemma LeadingZeroExactly(x: string)
    requires NumberOk(x)
    ensures RfcNumber(x) <==> !LeadingZero(x)
  {
    hide RfcNumText, RfcNumOk, NumText, NumOk, LeadingZero;
    if RfcNumber(x) {
      var n: RfcNum :| RfcNumOk(n) && RfcNumText(n) == x;
      NoLeadingZero(n);
    }
    if !LeadingZero(x) {
      var m: Num :| NumOk(m) && NumText(m) == x;
      AsStandard(m);
    }
  }

  lemma NoLeadingZero(n: RfcNum)
    requires RfcNumOk(n)
    ensures !LeadingZero(RfcNumText(n))
  {
    var tail := (if n.frac.None? then "" else "." + n.frac.value) + ExponentText(n);
    assert RfcNumText(n) == (if n.neg then "-" else "") + n.int_ + tail;
    assert tail == [] || !IsDigit(tail[0]);
    hide ExponentText, RfcNumText;
    ZeroLeads(n.neg, n.int_, tail);
  }

  lemma ZeroLeads(neg: bool, d: string, tail: string)
    requires Digits(d) && (tail == [] || !IsDigit(tail[0]))
    ensures LeadingZero((if neg then "-" else "") + d + tail) <==> d[0] == '0' && |d| > 1
  {
    var x := (if neg then "-" else "") + d + tail;
    assert x[0] == if neg then '-' else d[0];
    assert (if neg then x[1..] else x) == d + tail;
  }

  lemma AsStandard(m: Num)
    requires NumOk(m) && !LeadingZero(NumText(m))
    ensures RfcNumber(NumText(m))
  {
    var n := RfcNum(m.neg, m.int_, m.frac,
      if m.exp.None? then None else Some(Exponent(m.exp.value.0, if m.exp.value.1 then "-" else "", m.exp.value.2)));
    var tail := FracText(m) + ExpText(m);
    assert Mantissa(n) == Sign(m) + m.int_ + FracText(m);
    assert ExponentText(n) == ExpText(m);
    assert NumText(m) == RfcNumText(n);
    assert NumText(m) == Sign(m) + m.int_ + tail;
    assert tail == [] || !IsDigit(tail[0]);
    hide ExponentText, RfcNumText, NumText, FracText, ExpText, LeadingZero;
    ZeroLeads(m.neg, m.int_, tail);
    assert RfcNumOk(n);
  }

  // ---- sections 2 to 5: whole texts ---------------------------------------------------------------

  predicate IsScalar(kind: Kind) {
    kind == Null || kind == True || kind == False || kind == String || kind == Number
  }

  /** The shape of a JSON text: whitespace, brackets, commas and colons where they belong. */
  ghost predicate Shaped(v: Value) {
    match v
    case Scalar(t) => IsScalar(t.kind)
    case Arr(items, ws) => Blank(ws) && ItemsShaped(items)
    case Obj(members, ws) => Blank(ws) && MembersShaped(members)
  }

  ghost predicate ItemsShaped(items: Items) {
    match items
    case NoItems => true
    case FirstItem(w, v) => Blank(w) && Shaped(v)
    case NextItem(init, w, w', v) => !init.NoItems? && ItemsShaped(init) && Blank(w) && Blank(w') && Shaped(v)
  }

  ghost predicate MembersShaped(members: Members) {
    match members
    case NoMembers => true
    case FirstMember(m) => MemberShaped(m)
    case NextMember(init, w, m) => !init.NoMembers? && MembersShaped(init) && Blank(w) && MemberShaped(m)
  }

  ghost predicate MemberShaped(m: Member) {
    Blank(m.w1) && Blank(m.w2) && Blank(m.w3) && Shaped(m.v)
  }

  /** Literal names are spelled as they are in both grammars. */
  predicate Spelled(t: Token) {
    (t.kind == Null ==> t.text == "null") && (t.kind == True ==> t.text == "true") &&
      (t.kind == False ==> t.text == "false")
  }

  ghost predicate RfcToken(t: Token) {
    Spelled(t) && (t.kind == String ==> RfcString(t.text)) && (t.kind == Number ==> RfcNumber(t.text))
  }

  /** A JSON text of the standard. */
  ghost predicate Standard(v: Value) {
    Shaped(v) && forall k :: 0 <= k < |Tokens(v)| ==> RfcToken(Tokens(v)[k])
  }

  /** The scanner's own lexemes. */
  ghost predicate Lexed(t: Token) {
    Spelled(t) && (t.kind == String ==> StringOk(t.text)) && (t.kind == Number ==> NumberOk(t.text))
  }

  ghost predicate AllLexed(toks: seq<Token>) {
    forall k :: 0 <= k < |toks| ==> Lexed(toks[k])
  }

  lemma AllLexedCat(a: seq<Token>, b: seq<Token>)
    ensures AllLexed(a + b) <==> AllLexed(a) && AllLexed(b)
  {
    hide Lexed;
    if AllLexed(a + b) {
      forall k | 0 <= k < |a| ensures Lexed(a[k]) {
        assert (a + b)[k] == a[k];
      }
      forall k | 0 <= k < |b| ensures Lexed(b[k]) {
        assert (a + b)[|a| + k] == b[k];
      }
    }
  }

  lemma AllLexedOne(t: Token)
    ensures AllLexed([t]) <==> Lexed(t)
  {
    hide Lexed;
    assert [t][0] == t;
  }

  /** What the code takes for a text is one by its shape and by its lexemes. */
  lemma {:induction false} ByLexemes(v: Value)
    ensures WellFormed(v) <==> Shaped(v) && AllLexed(Tokens(v))
    decreases v
  {
    hide AllLexed, StringOk, NumberOk, Blank;
    match v
    case Scalar(t) => AllLexedOne(t);
    case Arr(items, ws) =>
      hide ItemsShaped, ItemsOk;
      ItemsByLexemes(items);
      AllLexedOne(Token(Array, "["));
      AllLexedOne(Token(CloseArray, "]"));
      AllLexedCat([Token(Array, "[")] + ItemsTokens(items), [Token(CloseArray, "]")]);
      AllLexedCat([Token(Array, "[")], ItemsTokens(items));
    case Obj(members, ws) =>
      hide MembersShaped, MembersOk;
      MembersByLexemes(members);
      AllLexedOne(Token(Object, "{"));
      AllLexedOne(Token(CloseObject, "}"));
      AllLexedCat([Token(Object, "{")] + MembersTokens(members), [Token(CloseObject, "}")]);
      AllLexedCat([Token(Object, "{")], MembersTokens(members));
  }

  lemma {:induction false} ItemsByLexemes(items: Items)
    ensures ItemsOk(items) <==> ItemsShaped(items) && AllLexed(ItemsTokens(items))
    decreases items
  {
    match items
    case NoItems =>
    case FirstItem(w, v) =>
      hide AllLexed, WellFormed, Shaped, Tokens, Blank;
      ByLexemes(v);
    case NextItem(init, w, w', v) =>
      hide AllLexed, WellFormed, Shaped, Tokens, Blank;
      ItemsByLexemes(init);
      ByLexemes(v);
      AllLexedCat(ItemsTokens(init), Tokens(v));
  }

  lemma {:induction false} MembersByLexemes(members: Members)
    ensures MembersOk(members) <==> MembersShaped(members) && AllLexed(MembersTokens(members))
    decreases members
  {
    match members
    case NoMembers =>
    case FirstMember(m) =>
      hide AllLexed, MemberOk, MemberShaped, Tokens;
      MemberByLexemes(m);
    case NextMember(init, w, m) =>
      hide AllLexed, MemberOk, MemberShaped, Tokens, Blank;
      MembersByLexemes(init);
      MemberByLexemes(m);
      Assoc(MembersTokens(init), [Token(String, m.key)], Tokens(m.v));
      AllLexedCat(MembersTokens(init), [Token(String, m.key)] + Tokens(m.v));
  }

  lemma {:induction false} MemberByLexemes(m: Member)
    ensures MemberOk(m) <==> MemberShaped(m) && AllLexed([Token(String, m.key)] + Tokens(m.v))
    decreases m
  {
    hide AllLexed, WellFormed, Shaped, Tokens, Blank, StringOk;
    ByLexemes(m.v);
    AllLexedOne(Token(String, m.key));
    AllLexedCat([Token(String, m.key)], Tokens(m.v));
  }

  // ---- every token that is read is a lexeme of the code ------------------------------------------

  lemma ValueLexed(data: string, st: St)
    requires st.i < |data| && ReadValue(data, st).1.kind != Invalid
    ensures Lexed(ReadValue(data, st).1)
  {
    hide ReadValue, StringOk, NumberOk;
    if ReadValue(data, st).1.kind !in {Object, Array} {
      ScalarSound(data, st);
    }
  }

  lemma KeyLexed(data: string, st: St)
    requires st.i < |data| && ReadString(data, st).1.kind != Invalid
    ensures Lexed(ReadString(data, st).1)
  {
    hide ScanString, StringOk;
    StringSound(data, st.i, st.i + 1);
  }

  lemma DispatchLexed(data: string, st: St)
    requires st.i < |data| && Dispatch(data, st).1.kind != Invalid
    ensures Lexed(Dispatch(data, st).1)
  {
    hide ReadValue, ReadString, After;
    var c := data[st.i];
    if st.cur == 1 && c != ']' {
      ValueLexed(data, st.(cur := 2));
    } else if st.cur == 2 && c == ',' && After(data, st).Some? {
      ValueLexed(data, After(data, st).value) by { AfterInside(data, st); }
    } else if st.cur == 3 && c != '}' {
      KeyLexed(data, st.(cur := 4));
    } else if st.cur == 4 && c == ':' && After(data, st).Some? {
      ValueLexed(data, After(data, st).value.(cur := 5)) by { AfterInside(data, st); }
    } else if st.cur == 5 && c == ',' && After(data, st).Some? {
      KeyLexed(data, After(data, st).value.(cur := 4)) by { AfterInside(data, st); }
    } else if st.cur == 0 || st.cur > 5 {
      ValueLexed(data, st);
    }
  }

  lemma AfterInside(data: string, st: St)
    requires st.i < |data| && After(data, st).Some?
    ensures After(data, st).value.i < |data|
  {
    hide SkipWs;
  }

  lemma NextLexed(data: string, st: St)
    requires st.i <= |data| && Next(data, st).1.kind != Invalid
    ensures Lexed(Next(data, st).1)
  {
    hide Dispatch, SkipWs;
    var at := st.(i := SkipWs(data, st.i));
    DispatchLexed(data, at);
  }

  lemma {:induction false} RunLexed(data: string, st: St, toks: seq<Token>)
    requires RunFrom(data, st, toks).Some?
    ensures AllLexed(toks)
    decreases |toks|
  {
    hide Next, Lexed;
    if toks != [] {
      NextLexed(data, st);
      RunLexed(data, Next(data, st).0, toks[1..]);
      AllLexedOne(toks[0]);
      AllLexedCat([toks[0]], toks[1..]);
      assert toks == [toks[0]] + toks[1..];
    }
  }

  // ---- exactly which texts of the standard are read -----------------------------------------------

  /** No string whose last character is an escaped backslash, no exponent with a plus sign. */
  predicate Readable(t: Token) {
    (t.kind == String && |t.text| >= 2 ==> t.text[|t.text| - 2] != '\\') && (t.kind == Number ==> '+' !in t.text)
  }

  predicate AllReadable(toks: seq<Token>) {
    forall k :: 0 <= k < |toks| ==> Readable(toks[k])
  }

  lemma TokenExactly(t: Token)
    requires RfcToken(t)
    ensures Lexed(t) <==> Readable(t)
  {
    hide NumberOk, RfcNumber, StringOk, RfcChars;
    if t.kind == String {
      StringOkExactly(t.text);
    }
    if t.kind == Number {
      NumberOkExactly(t.text);
    }
  }

  lemma StandardExactly(v: Value)
    requires Standard(v)
    ensures WellFormed(v) <==> AllReadable(Tokens(v))
  {
    hide Readable, Lexed, RfcToken, WellFormed, Shaped, Tokens;
    ByLexemes(v);
    forall k | 0 <= k < |Tokens(v)| ensures Lexed(Tokens(v)[k]) <==> Readable(Tokens(v)[k]) {
      TokenExactly(Tokens(v)[k]);
    }
  }

  /**
   * An array or object text of the standard is read as the tokens of its tree exactly when no string in it ends in an
   * escaped backslash and no exponent carries a plus sign; if not, some call differs.
   */
  lemma StandardTextExactly(data: string, pre: string, w: string, v: Value, rest: string)
    requires Standard(v) && !v.Scalar? && Blank(w) && data == pre + w + Text(v) + rest
    ensures RunFrom(data, St(|pre|, 0, [], NoErr), Tokens(v)) ==
      if AllReadable(Tokens(v)) then Some(St(|pre| + |w| + |Text(v)|, 0, [], NoErr)) else None
  {
    StandardExactly(v);
    if AllReadable(Tokens(v)) {
      hide *;
      TextIsAccepted(data, pre, w, v, rest);
    } else if RunFrom(data, St(|pre|, 0, [], NoErr), Tokens(v)).Some? {
      RunLexed(data, St(|pre|, 0, [], NoErr), Tokens(v));
      hide Lexed, WellFormed, Shaped, Tokens;
      ByLexemes(v);
      assert false;
    }
  }

  // ---- exactly which texts that are read are of the standard --------------------------------------

  /** No zero before other digits, and the characters of a string as section 7 wants them. */
  predicate Strict(t: Token) {
    && (t.kind == String && |t.text| >= 2 ==> RfcChars(t.text[1..|t.text| - 1]))
    && (t.kind == Number ==> !LeadingZero(t.text))
  }

  lemma StrictExactly(t: Token)
    requires Lexed(t)
    ensures RfcToken(t) <==> Strict(t)
  {
    hide NumberOk, RfcNumber, RfcChars, LeadingZero;
    if t.kind == Number {
      LeadingZeroExactly(t.text);
    }
  }

  /** A text that the code accepts is one of the standard exactly when its strings and numbers are. */
  lemma AcceptedIsStandard(v: Value)
    requires WellFormed(v)
    ensures Standard(v) <==> forall k :: 0 <= k < |Tokens(v)| ==> Strict(Tokens(v)[k])
  {
    hide Strict, Lexed, RfcToken, WellFormed, Shaped, Tokens;
    ByLexemes(v);
    forall k | 0 <= k < |Tokens(v)| ensures RfcToken(Tokens(v)[k]) <==> Strict(Tokens(v)[k]) {
      StrictExactly(Tokens(v)[k]);
    }
  }

  // ---- instances ----------------------------------------------------------------------------------

  /** The array of one scalar. */
  function Single(t: Token): Value {
    Arr(FirstItem("", Scalar(t)), "")
  }

  lemma SingleIs(t: Token)
    ensures Text(Single(t)) == "[" + t.text + "]" && Tokens(Single(t)) == [Token(Array, "["), t, Token(CloseArray, "]")]
    ensures Shaped(Single(t)) <==> IsScalar(t.kind)
    ensures WellFormed(Single(t)) <==> ScalarOk(t)
  {
    hide ScalarOk;
    var v, items := Single(t), FirstItem("", Scalar(t));
    assert ItemsText(items) == "" + Text(Scalar(t)) && ItemsTokens(items) == Tokens(Scalar(t));
    assert ItemsShaped(items) == Shaped(Scalar(t)) && ItemsOk(items) == WellFormed(Scalar(t));
  }

  lemma SingleStandard(t: Token)
    ensures Standard(Single(t)) <==> IsScalar(t.kind) && RfcToken(t)
  {
    SingleIs(t);
    hide RfcString, RfcNumber, Single;
    var v := Single(t);
    assert RfcToken(Tokens(v)[0]) && RfcToken(Tokens(v)[2]) && Tokens(v)[1] == t;
  }

  /** The array of t is a text of the standard that is not read as its tokens. */
  ghost predicate Lost(t: Token, text: string) {
    && Standard(Single(t)) && Text(Single(t)) == text
    && RunFrom(text, St(0, 0, [], NoErr), Tokens(Single(t))) == None
  }

  /** The array of t is no text of the standard and is read as its tokens. */
  ghost predicate Extra(t: Token, text: string) {
    && !Standard(Single(t)) && Text(Single(t)) == text
    && RunFrom(text, St(0, 0, [], NoErr), Tokens(Single(t))) == Some(St(|text|, 0, [], NoErr))
  }

  lemma SingleLost(t: Token, text: string)
    requires IsScalar(t.kind) && RfcToken(t) && !Readable(t) && text == "[" + t.text + "]"
    ensures Lost(t, text)
  {
    hide Standard, RfcToken, Readable, ScalarOk, RunFrom, Text, Tokens, WellFormed, Single;
    SingleIs(t);
    SingleStandard(t);
    IsArr(t);
    assert Tokens(Single(t))[1] == t;
    StandardTextExactly(text, "", "", Single(t), "");
  }

  lemma SingleRead(t: Token, text: string)
    requires ScalarOk(t) && !RfcToken(t) && text == "[" + t.text + "]"
    ensures Extra(t, text)
  {
    hide Standard, RfcToken, Readable, ScalarOk, RunFrom, Text, Tokens, WellFormed, Single;
    SingleIs(t);
    SingleStandard(t);
    IsArr(t);
    TextIsAccepted(text, "", "", Single(t), "");
  }

  lemma IsArr(t: Token)
    ensures Single(t).Arr?
  {
  }

  const BACKSLASH: Token := Token(String, "\"\\\\\"")
  const PLUS: Token := Token(Number, "1e+5")
  const ZERO: Token := Token(Number, "01")
  const ESCAPE: Token := Token(String, "\"\\q\"")

  /** `["\\"]` and `[1e+5]` are texts of the standard that are not read. */
  lemma StandardIsLost()
    ensures Lost(BACKSLASH, "[\"\\\\\"]") && Lost(PLUS, "[1e+5]")
  {
    hide *;
    BackslashLost();
    PlusLost();
  }

  lemma BackslashLost()
    ensures Lost(BACKSLASH, "[\"\\\\\"]")
  {
    assert "\\\\"[2..] == [] && RfcChars("\\\\") && BACKSLASH.text[1..3] == "\\\\";
    assert "[" + BACKSLASH.text + "]" == "[\"\\\\\"]";
    hide Lost;
    SingleLost(BACKSLASH, "[" + BACKSLASH.text + "]");
  }

  lemma PlusLost()
    ensures Lost(PLUS, "[1e+5]")
  {
    var m := RfcNum(false, "1", None, Some(Exponent('e', "+", "5")));
    assert RfcNumOk(m) && RfcNumText(m) == PLUS.text;
    assert PLUS.text[2] == '+';
    assert "[" + PLUS.text + "]" == "[1e+5]";
    hide Lost;
    SingleLost(PLUS, "[" + PLUS.text + "]");
  }

  /** `[01]` and `["\q"]` are read and are not texts of the standard. */
  lemma OthersAreRead()
    ensures Extra(ZERO, "[01]") && Extra(ESCAPE, "[\"\\q\"]")
  {
    OtherTokens();
    assert "[" + ZERO.text + "]" == "[01]" && "[" + ESCAPE.text + "]" == "[\"\\q\"]";
    hide *;
    SingleRead(ZERO, "[" + ZERO.text + "]");
    SingleRead(ESCAPE, "[" + ESCAPE.text + "]");
  }

  lemma OtherTokens()
    ensures ScalarOk(ZERO) && !RfcToken(ZERO) && ScalarOk(ESCAPE) && !RfcToken(ESCAPE)
  {
    var m := Num(false, "01", None, None);
    assert NumOk(m) && NumText(m) == ZERO.text;
    assert LeadingZero(ZERO.text);
    LeadingZeroExactly(ZERO.text);
    assert ESCAPE.text[1..3] == "\\q" && !RfcChars("\\q");
  }
}
