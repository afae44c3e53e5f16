/** JSON texts as trees that keep their whitespace, and the lexemes at their leaves. */
module JsonTree {
  import opened Collections
  import opened JsonTokens

  datatype Value = Scalar(t: Token) | Arr(items: Items, ws: string) | Obj(members: Members, ws: string)

  /** Elements with the whitespace before the comma and before the value. */
  datatype Items = NoItems | FirstItem(w: string, v: Value) | NextItem(init: Items, w: string, w': string, v: Value)

  datatype Members = NoMembers | FirstMember(m: Member) | NextMember(init: Members, w: string, m: Member)

  /** Whitespace before the key, before the colon and before the value. */
  datatype Member = Member(w1: string, key: string, w2: string, w3: string, v: Value)

  function Text(v: Value): string {
    match v
    case Scalar(t) => t.text
    case Arr(items, ws) => "[" + ItemsText(items) + ws + "]"
    case Obj(members, ws) => "{" + MembersText(members) + ws + "}"
  }

  function ItemsText(items: Items): string {
    match items
    case NoItems => ""
    case FirstItem(w, v) => w + Text(v)
    case NextItem(init, w, w', v) => ItemsText(init) + w + "," + w' + Text(v)
  }

  function MembersText(members: Members): string {
    match members
    case NoMembers => ""
    case FirstMember(m) => MemberText(m)
    case NextMember(init, w, m) => MembersText(init) + w + "," + MemberText(m)
  }

  function MemberText(m: Member): string {
    m.w1 + m.key + m.w2 + ":" + m.w3 + Text(m.v)
  }

  /** The tokens of a tree, depth first. */
  function Tokens(v: Value): seq<Token> {
    match v
    case Scalar(t) => [t]
    case Arr(items, ws) => [Token(Array, "[")] + ItemsTokens(items) + [Token(CloseArray, "]")]
    case Obj(members, ws) => [Token(Object, "{")] + MembersTokens(members) + [Token(CloseObject, "}")]
  }

  function ItemsTokens(items: Items): seq<Token> {
    match items
    case NoItems => []
    case FirstItem(w, v) => Tokens(v)
    case NextItem(init, w, w', v) => ItemsTokens(init) + Tokens(v)
  }

  function MembersTokens(members: Members): seq<Token> {
    match members
    case NoMembers => []
    case FirstMember(m) => [Token(String, m.key)] + Tokens(m.v)
    case NextMember(init, w, m) => MembersTokens(init) + [Token(String, m.key)] + Tokens(m.v)
  }

  // ---- positions --------------------------------------------------------------------------------

  /** x stands at position i. */
  predicate At(data: string, i: nat, x: string) {
    i + |x| <= |data| && data[i..i + |x|] == x
  }

  lemma AtSplit(data: string, i: nat, x: string, y: string)
    ensures At(data, i, x + y) <==> At(data, i, x) && At(data, i + |x|, y)
  {
    if At(data, i, x + y) {
      assert data[i..i + |x|] == (x + y)[..|x|];
      assert data[i + |x|..i + |x| + |y|] == (x + y)[|x|..];
    }
    if At(data, i, x) && At(data, i + |x|, y) {
      assert data[i..i + |x + y|] == data[i..i + |x|] + data[i + |x|..i + |x| + |y|];
    }
  }

  lemma AtFirst(data: string, i: nat, x: string)
    requires At(data, i, x) && |x| > 0
    ensures i < |data| && data[i] == x[0] && At(data, i + 1, x[1..])
  {
    assert x == x[..1] + x[1..];
    AtSplit(data, i, x[..1], x[1..]);
    assert data[i..i + |x|][0] == data[i];
  }

  // ---- lexemes ----------------------------------------------------------------------------------

  /** The whitespace of section 2 of RFC 8259. */
  predicate Blank(w: string) {
    forall k :: 0 <= k < |w| ==> w[k] as int in {0x20, 0x09, 0x0a, 0x0d}
  }

  predicate Digits(d: string) {
    |d| > 0 && forall k :: 0 <= k < |d| ==> 0x30 <= d[k] as int <= 0x39
  }

  /** A quoted string: only its last quote does not follow a backslash. */
  predicate StringOk(x: string) {
    && |x| >= 2 && x[0] == '"' && x[|x| - 1] == '"' && x[|x| - 2] != '\\'
    && forall j :: 1 <= j < |x| - 1 && x[j] == '"' ==> x[j - 1] == '\\'
  }

  /** Sign, integer digits, fraction digits, exponent letter with its sign and digits. */
  datatype Num = Num(neg: bool, int_: string, frac: Option<string>, exp: Option<(char, bool, string)>)

  predicate NumOk(n: Num) {
    && Digits(n.int_) && (n.frac.Some? ==> Digits(n.frac.value))
    && ExpOk(n.exp)
  }

  predicate ExpOk(exp: Option<(char, bool, string)>) {
    exp.Some? ==> (exp.value.0 == 'e' || exp.value.0 == 'E') && Digits(exp.value.2)
  }

  function FracText(n: Num): string {
    if n.frac.None? then "" else "." + n.frac.value
  }

  function ExpText(n: Num): string {
    if n.exp.None? then "" else [n.exp.value.0] + (if n.exp.value.1 then "-" else "") + n.exp.value.2
  }

  function NumText(n: Num): string {
    Sign(n) + n.int_ + FracText(n) + ExpText(n)
  }

  ghost predicate NumberOk(x: string) {
    exists n: Num :: NumOk(n) && NumText(n) == x
  }

  ghost predicate ScalarOk(t: Token) {
    match t.kind
    case Null => t.text == "null"
    case True => t.text == "true"
    case False => t.text == "false"
    case String => StringOk(t.text)
    case Number => NumberOk(t.text)
    case _ => false
  }

  ghost predicate WellFormed(v: Value) {
    match v
    case Scalar(t) => ScalarOk(t)
    case Arr(items, ws) => Blank(ws) && ItemsOk(items)
    case Obj(members, ws) => Blank(ws) && MembersOk(members)
  }

  ghost predicate ItemsOk(items: Items) {
    match items
    case NoItems => true
    case FirstItem(w, v) => Blank(w) && WellFormed(v)
    case NextItem(init, w, w', v) => !init.NoItems? && ItemsOk(init) && Blank(w) && Blank(w') && WellFormed(v)
  }

  ghost predicate MembersOk(members: Members) {
    match members
    case NoMembers => true
    case FirstMember(m) => MemberOk(m)
    case NextMember(init, w, m) => !init.NoMembers? && MembersOk(init) && Blank(w) && MemberOk(m)
  }

  ghost predicate MemberOk(m: Member) {
    Blank(m.w1) && StringOk(m.key) && Blank(m.w2) && Blank(m.w3) && WellFormed(m.v)
  }

  // ---- scanning finds exactly the lexemes -------------------------------------------------------

  lemma {:induction false} StringSound(data: string, i: nat, j: nat)
    requires i < j <= |data| && data[i] == '"' && ScanString(data, j).Ok?
    requires forall k :: i < k < j && data[k] == '"' ==> data[k - 1] == '\\'
    ensures StringOk(data[i..ScanString(data, j).end])
    decreases |data| - j
  {
    if data[j] == '"' && data[j - 1] != '\\' {
      var x := data[i..j + 1];
      forall k | 1 <= k < |x| - 1 && x[k] == '"' ensures x[k - 1] == '\\' {
        assert data[i + k] == '"';
      }
    } else {
      StringSound(data, i, j + 1);
    }
  }

  lemma {:induction false} StringComplete(data: string, i: nat, j: nat, x: string)
    requires StringOk(x) && At(data, i, x) && i < j < i + |x|
    ensures ScanString(data, j) == Ok(i + |x|)
    decreases |data| - j
  {
    assert data[j] == data[i..i + |x|][j - i] && data[j - 1] == data[i..i + |x|][j - 1 - i];
    if j < i + |x| - 1 {
      StringComplete(data, i, j + 1, x);
    }
  }

  /** Runs over a maximal block of digits. */
  lemma {:induction false} DigitsSound(data: string, i: nat, f: bool, e: bool) returns (j: nat)
    requires i <= |data|
    ensures i <= j <= |data| && (j < |data| ==> !IsDigit(data[j])) && forall k :: i <= k < j ==> IsDigit(data[k])
    ensures ScanDigits(data, i, f, e) == ScanDigits(data, j, f, e)
    decreases |data| - i
  {
    if i < |data| && IsDigit(data[i]) {
      j := DigitsSound(data, i + 1, f, e);
    } else {
      j := i;
    }
  }

  lemma {:induction false} DigitsComplete(data: string, i: nat, d: string, f: bool, e: bool)
    requires At(data, i, d) && forall k :: 0 <= k < |d| ==> IsDigit(d[k])
    ensures i + |d| <= |data| && ScanDigits(data, i, f, e) == ScanDigits(data, i + |d|, f, e)
    decreases |d|
  {
    if d != [] {
      AtFirst(data, i, d);
      DigitsComplete(data, i + 1, d[1..], f, e);
    }
  }

  /** A block of digits where one is due. */
  lemma NumberDigits(data: string, i: nat, d: string, f: bool, e: bool)
    requires At(data, i, d) && Digits(d)
    ensures i + |d| <= |data| && ScanNumber(data, i, f, e) == ScanDigits(data, i + |d|, f, e)
  {
    hide *;
    DigitsRest(d);
    AtFirst(data, i, d);
    DigitDue(data, i, f, e);
    DigitsComplete(data, i + 1, d[1..], f, e);
  }

  lemma DigitsRest(d: string)
    requires Digits(d)
    ensures |d| > 0 && IsDigit(d[0]) && forall k :: 0 <= k < |d[1..]| ==> IsDigit(d[1..][k])
  {
  }

  lemma DigitDue(data: string, i: nat, f: bool, e: bool)
    requires i < |data| && IsDigit(data[i])
    ensures ScanNumber(data, i, f, e) == ScanDigits(data, i + 1, f, e)
  {
  }

  /** The exponent part, after the fraction. */
  lemma ExpSound(data: string, i: nat) returns (exp: Option<(char, bool, string)>)
    requires i <= |data| && (i < |data| ==> !IsDigit(data[i])) && ScanDigits(data, i, true, false).Ok?
    ensures ExpOk(exp)
    ensures data[i..ScanDigits(data, i, true, false).end] == ExpText(Num(false, "", None, exp))
  {
    if i < |data| && (data[i] == 'e' || data[i] == 'E') {
      var neg := i + 1 < |data| && data[i + 1] == '-';
      var a := if neg then i + 2 else i + 1;
      var j := DigitsSound(data, a + 1, true, true);
      exp := Some((data[i], neg, data[a..j]));
      assert data[i..j] == [data[i]] + (if neg then "-" else "") + data[a..j];
    } else {
      exp := None;
    }
  }

  /** Fraction and exponent, after the integer digits. */
  lemma FracSound(data: string, j: nat) returns (n: Num)
    requires j <= |data| && (j < |data| ==> !IsDigit(data[j])) && ScanDigits(data, j, false, false).Ok?
    ensures NumOk(n.(int_ := "0")) && data[j..ScanDigits(data, j, false, false).end] == FracText(n) + ExpText(n)
  {
    hide *;
    if j < |data| && data[j] == '.' {
      PointSound(data, j);
      var k := DigitsSound(data, j + 2, true, false);
      var exp := ExpSound(data, k);
      n := PointParts(data, j, k, ScanDigits(data, k, true, false).end, exp);
    } else {
      SameExp(data, j);
      var exp := ExpSound(data, j);
      n := Num(false, "", None, exp);
      NoFraction(exp);
    }
  }

  lemma PointParts(data: string, j: nat, k: nat, end: nat, exp: Option<(char, bool, string)>) returns (n: Num)
    requires j + 1 < k <= end <= |data| && data[j] == '.' && (forall m :: j < m < k ==> IsDigit(data[m]))
    requires ExpOk(exp) && data[k..end] == ExpText(Num(false, "", None, exp))
    ensures NumOk(n.(int_ := "0")) && data[j..end] == FracText(n) + ExpText(n)
  {
    n := Num(false, "", Some(data[j + 1..k]), exp);
    assert ExpText(n) == data[k..end];
    assert data[j..k] == "." + data[j + 1..k];
    hide ExpText;
    assert data[j..end] == data[j..k] + data[k..end];
  }

  lemma NoFraction(exp: Option<(char, bool, string)>)
    requires ExpOk(exp)
    ensures var n := Num(false, "", None, exp); NumOk(n.(int_ := "0")) && FracText(n) + ExpText(n) == ExpText(n)
  {
    hide ExpText;
  }

  lemma PointSound(data: string, j: nat)
    requires j < |data| && data[j] == '.' && ScanDigits(data, j, false, false).Ok?
    ensures j + 1 < |data| && IsDigit(data[j + 1])
    ensures ScanDigits(data, j, false, false) == ScanDigits(data, j + 2, true, false)
  {
  }

  lemma NumberSound(data: string, i: nat, a: nat)
    requires i <= a < |data| && data[i..a] == (if data[i] == '-' then "-" else "")
    requires ScanNumber(data, a, false, false).Ok?
    ensures NumberOk(data[i..ScanNumber(data, a, false, false).end])
  {
    hide *;
    NumberStart(data, a);
    var end := ScanNumber(data, a, false, false).end;
    var j := DigitsSound(data, a + 1, false, false);
    var m := FracSound(data, j);
    DigitsFrom(data, a, j);
    NumberPieces(m, data[i..a], data[a..j], data[j..end]);
    ThreeParts(data, i, a, j, end);
  }

  lemma DigitsFrom(data: string, a: nat, j: nat)
    requires a < j <= |data| && forall k :: a <= k < j ==> IsDigit(data[k])
    ensures Digits(data[a..j])
  {
  }

  lemma ThreeParts(data: string, i: nat, a: nat, j: nat, end: nat)
    requires i <= a <= j <= end <= |data|
    ensures data[i..end] == data[i..a] + data[a..j] + data[j..end]
  {
  }

  lemma NumberStart(data: string, a: nat)
    requires a <= |data| && ScanNumber(data, a, false, false).Ok?
    ensures a < |data| && IsDigit(data[a]) && ScanNumber(data, a, false, false) == ScanDigits(data, a + 1, false, false)
  {
  }

  lemma NumberPieces(m: Num, sign: string, d: string, tail: string)
    requires NumOk(m.(int_ := "0")) && (sign == "-" || sign == "") && Digits(d) && tail == FracText(m) + ExpText(m)
    ensures NumberOk(sign + d + tail)
  {
    var n := m.(neg := sign == "-", int_ := d);
    assert FracText(n) == FracText(m) && ExpText(n) == ExpText(m);
    assert NumOk(n);
    hide FracText, ExpText, Digits;
    Assoc(sign + d, FracText(n), ExpText(n));
    assert NumText(n) == sign + d + tail;
  }

  lemma SameExp(data: string, j: nat)
    requires j <= |data| && (j < |data| ==> !IsDigit(data[j]) && data[j] != '.')
    ensures ScanDigits(data, j, false, false) == ScanDigits(data, j, true, false)
  {
  }

  predicate Delimiter(c: char) {
    IsWhitespace(c) || c == ',' || c == ']' || c == '}'
  }

  /** A number followed by a delimiter is scanned to its end. */
  lemma ExpComplete(data: string, i: nat, n: Num)
    requires NumOk(n) && At(data, i, ExpText(n)) && i + |ExpText(n)| < |data| && Delimiter(data[i + |ExpText(n)|])
    ensures ScanDigits(data, i, true, false) == Ok(i + |ExpText(n)|)
  {
    hide *;
    var c, sign, d := ExpTextIs(n);
    if n.exp.Some? {
      ExpParts(data, i, [c], sign, d);
      ExpDigits(data, i, c, sign, d);
    } else {
      DigitsEnd(data, i, false);
    }
  }

  lemma ExpTextIs(n: Num) returns (c: char, sign: string, d: string)
    requires NumOk(n)
    ensures n.exp.None? ==> ExpText(n) == ""
    ensures n.exp.Some? ==>
      ExpText(n) == [c] + sign + d && (c == 'e' || c == 'E') && (sign == "-" || sign == "") && Digits(d)
  {
    c, sign, d := 'e', "", "";
    if n.exp.Some? {
      c, sign, d := n.exp.value.0, if n.exp.value.1 then "-" else "", n.exp.value.2;
    }
  }

  lemma ExpParts(data: string, i: nat, c: string, sign: string, d: string)
    requires At(data, i, c + sign + d)
    ensures At(data, i, c) && At(data, i + |c|, sign) && At(data, i + |c| + |sign|, d)
  {
    hide At;
    AtSplit(data, i, c + sign, d);
    AtSplit(data, i, c, sign);
  }

  lemma ExpDigits(data: string, i: nat, c: char, sign: string, d: string)
    requires (c == 'e' || c == 'E') && (sign == "-" || sign == "") && Digits(d)
    requires At(data, i, [c]) && At(data, i + 1, sign) && At(data, i + 1 + |sign|, d)
    requires i + 1 + |sign| + |d| < |data| && Delimiter(data[i + 1 + |sign| + |d|])
    ensures ScanDigits(data, i, true, false) == Ok(i + 1 + |sign| + |d|)
  {
    hide At, ScanDigits, ScanNumber;
    AtFirst(data, i, [c]);
    AtFirst(data, i + 1 + |sign|, d);
    if sign != "" {
      AtFirst(data, i + 1, sign);
    }
    ExpStarts(data, i, |sign|);
    NumberDigits(data, i + 1 + |sign|, d, true, true);
    DigitsEnd(data, i + 1 + |sign| + |d|, true);
  }

  lemma ExpStarts(data: string, i: nat, k: nat)
    requires i + 1 < |data| && (data[i] == 'e' || data[i] == 'E') && k == if data[i + 1] == '-' then 1 else 0
    ensures ScanDigits(data, i, true, false) == ScanNumber(data, i + 1 + k, true, true)
  {
  }

  lemma DigitsEnd(data: string, i: nat, e: bool)
    requires i < |data| && Delimiter(data[i])
    ensures ScanDigits(data, i, true, e) == Ok(i)
  {
  }

  lemma FracComplete(data: string, i: nat, n: Num)
    requires NumOk(n) && At(data, i, FracText(n)) && At(data, i + |FracText(n)|, ExpText(n))
    requires var end := i + |FracText(n)| + |ExpText(n)|; end < |data| && Delimiter(data[end])
    ensures ScanDigits(data, i, false, false) == Ok(i + |FracText(n)| + |ExpText(n)|)
  {
    var k := i + |FracText(n)|;
    ExpComplete(data, k, n);
    if n.frac.Some? {
      AtFirst(data, i, FracText(n));
      NumberDigits(data, i + 1, n.frac.value, true, false);
    } else {
      if n.exp.Some? {
        AtFirst(data, i, ExpText(n));
      }
      SameExp(data, i);
    }
  }

  function Sign(n: Num): string {
    if n.neg then "-" else ""
  }

  lemma NumberParts(data: string, i: nat, n: Num)
    requires At(data, i, NumText(n))
    ensures var a := i + |Sign(n)|; var b := a + |n.int_|; var c := b + |FracText(n)|;
      && At(data, i, Sign(n)) && At(data, a, n.int_) && At(data, b, FracText(n)) && At(data, c, ExpText(n))
      && c + |ExpText(n)| == i + |NumText(n)|
  {
    hide At, FracText, ExpText;
    AtSplit(data, i, Sign(n) + n.int_ + FracText(n), ExpText(n));
    AtSplit(data, i, Sign(n) + n.int_, FracText(n));
    AtSplit(data, i, Sign(n), n.int_);
  }

  lemma NumberScans(data: string, i: nat, n: Num)
    requires NumOk(n) && At(data, i, NumText(n)) && i + |NumText(n)| < |data| && Delimiter(data[i + |NumText(n)|])
    ensures IsDigit(data[i]) || data[i] == '-'
    ensures ScanNumber(data, if data[i] == '-' then i + 1 else i, false, false) == Ok(i + |NumText(n)|)
  {
    hide At, FracText, ExpText, NumText, ScanDigits, ScanNumber;
    NumberParts(data, i, n);
    var a := i + |Sign(n)|;
    AtFirst(data, a, n.int_);
    if n.neg {
      AtFirst(data, i, Sign(n));
    }
    NumberDigits(data, a, n.int_, false, false);
    FracComplete(data, a + |n.int_|, n);
  }

  lemma NumberComplete(data: string, i: nat, x: string)
    requires NumberOk(x) && At(data, i, x) && i + |x| < |data| && Delimiter(data[i + |x|])
    ensures IsDigit(data[i]) || data[i] == '-'
    ensures ScanNumber(data, if data[i] == '-' then i + 1 else i, false, false) == Ok(i + |x|)
  {
    hide At, ScanNumber, NumText;
    var n: Num :| NumOk(n) && NumText(n) == x;
    NumberScans(data, i, n);
  }
}
