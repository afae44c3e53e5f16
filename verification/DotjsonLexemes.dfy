/**
 * The words of a dotjson text: spaces, strings with any escapes and numbers, and that the decoder reads exactly
 * these.
 */
module DotjsonLexemes {
  import opened Collections
  import opened DotjsonTable
  import opened DotjsonGrammar
  import opened DotjsonRoundTrip

  // ---- positions ----------------------------------------------------------------------------------

  lemma SpellsBoth(s: Bytes, p: nat, a: Bytes, b: Bytes)
    ensures Spells(s, p, a + b) <==> Spells(s, p, a) && Spells(s, p + |a|, b)
  {
    if Spells(s, p, a + b) {
      SpellsParts(s, p, a, b);
    }
    if Spells(s, p, a) && Spells(s, p + |a|, b) {
      assert s[p..p + |a + b|] == s[p..p + |a|] + s[p + |a|..p + |a| + |b|];
    }
  }

  lemma SpellsByte(s: Bytes, p: nat, c: Byte)
    ensures Spells(s, p, [c]) <==> p < |s| && s[p] == c
  {
    if p < |s| {
      assert s[p..p + 1] == [s[p]];
    }
  }

  // ---- spaces -------------------------------------------------------------------------------------

  /** The white space of section 2 of RFC 8259. */
  predicate White(c: Byte) {
    c as int in {0x20, 0x09, 0x0a, 0x0d}
  }

  predicate Spaces(w: Bytes) {
    forall i :: 0 <= i < |w| ==> White(w[i])
  }

  lemma {:induction false} SkipsSpaces(s: Bytes, p: nat, w: Bytes)
    requires Spaces(w) && Spells(s, p, w) && !Space(At(s, p + |w|))
    ensures Skip(s, p) == p + |w|
    decreases |w|
  {
    if w != [] {
      SpellsAt(s, p, w, 0);
      assert w == [w[0]] + w[1..];
      SpellsParts(s, p, [w[0]], w[1..]);
      SkipsSpaces(s, p + 1, w[1..]);
    }
  }

  /** The spaces that Skip passes over. */
  lemma {:induction false} SkippedSpaces(s: Bytes, p: nat) returns (w: Bytes)
    requires p <= |s|
    ensures Spaces(w) && Spells(s, p, w) && Skip(s, p) == p + |w|
    decreases |s| - p
  {
    if Space(At(s, p)) {
      var rest := SkippedSpaces(s, p + 1);
      w := [s[p]] + rest;
      SpellsByte(s, p, s[p]);
      SpellsBoth(s, p, [s[p]], rest);
    } else {
      w := [];
    }
  }

  // ---- strings ------------------------------------------------------------------------------------

  /** A byte that stands for itself, an escape letter, or four hexadecimal digits. */
  datatype Char = Plain(c: Byte) | Escape(x: Byte) | Unicode(h: Bytes)

  predicate CharOk(c: Char) {
    match c
    case Plain(b) => b != '\"' && b != '\\' && b != '\0'
    case Escape(x) => x in "\"\\/bfnrt"
    case Unicode(h) => |h| == 4 && forall i :: 0 <= i < 4 ==> Hex(h[i]).Some?
  }

  function CharText(c: Char): Bytes {
    match c
    case Plain(b) => [b]
    case Escape(x) => ['\\', x]
    case Unicode(h) => ['\\', 'u'] + h
  }

  function CodePoint(h: Bytes): nat
    requires CharOk(Unicode(h))
  {
    4096 * Hex(h[0]).value + 256 * Hex(h[1]).value + 16 * Hex(h[2]).value + Hex(h[3]).value
  }

  /** What an escape letter stands for; quote, backslash and slash stand for themselves. */
  function Letter(x: Byte): Byte {
    match x
    case 'b' => 8 as char
    case 'f' => 12 as char
    case 'n' => '\n'
    case 'r' => '\r'
    case 't' => '\t'
    case _ => x
  }

  function CharMeans(c: Char): Bytes
    requires CharOk(c)
  {
    match c
    case Plain(b) => [b]
    case Escape(x) => [Letter(x)]
    case Unicode(h) => Utf8(CodePoint(h))
  }

  predicate CharsOk(cs: seq<Char>) {
    forall i :: 0 <= i < |cs| ==> CharOk(cs[i])
  }

  function CharsText(cs: seq<Char>): Bytes {
    if cs == [] then [] else CharText(cs[0]) + CharsText(cs[1..])
  }

  function CharsMean(cs: seq<Char>): Bytes
    requires CharsOk(cs)
  {
    if cs == [] then [] else CharMeans(cs[0]) + CharsMean(cs[1..])
  }

  lemma FourDigits(s: Bytes, p: nat, h: Bytes)
    requires CharOk(Unicode(h)) && Spells(s, p, h)
    ensures HexRun(s, p, 4, 0) == Some(CodePoint(h))
  {
    forall i | 0 <= i < 4 ensures At(s, p + i) == h[i] {
      SpellsAt(s, p, h, i);
    }
    hide Hex, Spells;
    var a, b, c, d := Hex(h[0]).value, Hex(h[1]).value, Hex(h[2]).value, Hex(h[3]).value;
    assert At(s, p + 0) == h[0] && At(s, p + 1) == h[1] && At(s, p + 2) == h[2] && At(s, p + 3) == h[3];
    HexOne(s, p, 4, 0);
    HexOne(s, p + 1, 3, a);
    HexOne(s, p + 2, 2, 16 * a + b);
    HexOne(s, p + 3, 1, 16 * (16 * a + b) + c);
  }

  lemma HexOne(s: Bytes, p: nat, n: nat, u: nat)
    requires n > 0 && Hex(At(s, p)).Some?
    ensures HexRun(s, p, n, u) == HexRun(s, p + 1, n - 1, 16 * u + Hex(At(s, p)).value)
    ensures n == 1 ==> HexRun(s, p, n, u) == Some(16 * u + Hex(At(s, p)).value)
  {
    hide Hex;
  }

  /** A character as written is read as what it stands for. */
  lemma PieceComplete(s: Bytes, p: nat, c: Char)
    requires CharOk(c) && Spells(s, p, CharText(c))
    ensures p < |s| && At(s, p) != '\"' && At(s, p) != '\0' && Piece(s, p) == Ok(p + |CharText(c)|, CharMeans(c))
  {
    SpellsAt(s, p, CharText(c), 0);
    match c
    case Plain(b) =>
    case Escape(x) => SpellsAt(s, p, CharText(c), 1);
    case Unicode(h) => UnicodeComplete(s, p, h);
  }

  lemma UnicodeComplete(s: Bytes, p: nat, h: Bytes)
    requires CharOk(Unicode(h)) && Spells(s, p, ['\\', 'u'] + h)
    ensures p + 6 <= |s| && s[p] == '\\' && Piece(s, p) == Ok(p + 6, CharMeans(Unicode(h)))
  {
    SpellsAt(s, p, ['\\', 'u'] + h, 0);
    SpellsAt(s, p, ['\\', 'u'] + h, 1);
    SpellsIn(s, p, ['\\', 'u'] + h);
    hide Spells, HexRun, Utf8, CodePoint;
    SpellsParts(s, p, ['\\', 'u'], h);
    FourDigits(s, p + 2, h);
  }

  lemma PieceSound(s: Bytes, p: nat) returns (c: Char)
    requires p < |s| && s[p] != '\"' && s[p] != '\0' && Piece(s, p).Ok?
    ensures CharOk(c) && Spells(s, p, CharText(c))
  {
    if s[p] != '\\' {
      c := Plain(s[p]);
      SpellsByte(s, p, s[p]);
    } else if At(s, p + 1) == 'u' {
      c := UnicodeSound(s, p);
    } else {
      c := Escape(s[p + 1]);
      assert s[p..p + 2] == ['\\', s[p + 1]];
    }
  }

  lemma UnicodeSound(s: Bytes, p: nat) returns (c: Char)
    requires p < |s| && s[p] == '\\' && At(s, p + 1) == 'u' && Piece(s, p).Ok?
    ensures CharOk(c) && Spells(s, p, CharText(c))
  {
    var h := s[p + 2..p + 6];
    c := Unicode(h);
    FourHex(s, p + 2);
    hide HexRun, Hex;
    assert s[p..p + 6] == ['\\', 'u'] + h;
  }

  lemma FourHex(s: Bytes, p: nat)
    requires HexRun(s, p, 4, 0).Some?
    ensures Hex(At(s, p)).Some? && Hex(At(s, p + 1)).Some? && Hex(At(s, p + 2)).Some? && Hex(At(s, p + 3)).Some?
  {
    hide Hex;
    var u := HexFirst(s, p, 4, 0);
    u := HexFirst(s, p + 1, 3, u);
    u := HexFirst(s, p + 2, 2, u);
    u := HexFirst(s, p + 3, 1, u);
  }

  lemma HexFirst(s: Bytes, p: nat, n: nat, u: nat) returns (v: nat)
    requires n > 0 && HexRun(s, p, n, u).Some?
    ensures Hex(At(s, p)).Some? && HexRun(s, p + 1, n - 1, v).Some?
  {
    v := 16 * u + Hex(At(s, p)).value;
  }

  lemma {:induction false} StringComplete(s: Bytes, p: nat, cs: seq<Char>, acc: Bytes)
    requires CharsOk(cs) && Spells(s, p, CharsText(cs) + ['\"'])
    ensures Unescape(s, p, acc) == Ok(p + |CharsText(cs)| + 1, acc + CharsMean(cs))
    decreases |cs|
  {
    hide *;
    if cs == [] {
      NoChars(s, p, acc);
    } else {
      CharsFirst(cs);
      var c, rest := cs[0], cs[1..];
      Assoc(CharText(c), CharsText(rest), ['\"']);
      SpellsParts(s, p, CharText(c), CharsText(rest) + ['\"']);
      PieceComplete(s, p, c);
      PieceThen(s, p, acc);
      StringComplete(s, p + |CharText(c)|, rest, acc + CharMeans(c));
      Assoc(acc, CharMeans(c), CharsMean(rest));
    }
  }

  lemma NoChars(s: Bytes, p: nat, acc: Bytes)
    requires Spells(s, p, CharsText([]) + ['\"'])
    ensures Unescape(s, p, acc) == Ok(p + |CharsText([])| + 1, acc + CharsMean([]))
  {
    assert CharsText([]) + ['\"'] == ['\"'] && acc + CharsMean([]) == acc;
    SpellsAt(s, p, ['\"'], 0);
  }

  lemma CharsFirst(cs: seq<Char>)
    requires cs != [] && CharsOk(cs)
    ensures CharOk(cs[0]) && CharsOk(cs[1..]) && CharsText(cs) == CharText(cs[0]) + CharsText(cs[1..])
    ensures CharsMean(cs) == CharMeans(cs[0]) + CharsMean(cs[1..])
  {
    hide CharOk, CharText, CharMeans;
  }

  lemma {:induction false} StringSound(s: Bytes, p: nat, acc: Bytes) returns (cs: seq<Char>)
    requires p <= |s| && Unescape(s, p, acc).Ok?
    ensures CharsOk(cs) && Spells(s, p, CharsText(cs) + ['\"'])
    decreases |s| - p
  {
    hide *;
    PieceNext(s, p, acc);
    if At(s, p) == '\"' {
      cs := [];
      NoCharsSound(s, p);
    } else {
      var c := PieceSound(s, p);
      PieceComplete(s, p, c);
      PieceThen(s, p, acc);
      CharIsSome(c);
      SpellsIn(s, p, CharText(c));
      var rest := StringSound(s, p + |CharText(c)|, acc + CharMeans(c));
      cs := [c] + rest;
      MoreChars(c, rest);
      SpellsBoth(s, p, CharText(c), CharsText(rest) + ['\"']);
      Assoc(CharText(c), CharsText(rest), ['\"']);
    }
  }

  lemma PieceNext(s: Bytes, p: nat, acc: Bytes)
    requires p <= |s| && Unescape(s, p, acc).Ok?
    ensures At(s, p) != '\"' ==> p < |s| && s[p] == At(s, p) && s[p] != '\0' && Piece(s, p).Ok?
  {
    hide Piece;
  }

  lemma NoCharsSound(s: Bytes, p: nat)
    requires At(s, p) == '\"'
    ensures CharsOk([]) && Spells(s, p, CharsText([]) + ['\"'])
  {
    assert CharsText([]) + ['\"'] == ['\"'];
    SpellsByte(s, p, '\"');
  }

  lemma CharIsSome(c: Char)
    ensures |CharText(c)| > 0
  {
  }

  lemma SpellsIn(s: Bytes, p: nat, w: Bytes)
    requires Spells(s, p, w)
    ensures p + |w| <= |s|
  {
  }

  lemma MoreChars(c: Char, rest: seq<Char>)
    requires CharOk(c) && CharsOk(rest)
    ensures CharsOk([c] + rest) && CharsText([c] + rest) == CharText(c) + CharsText(rest)
  {
    hide CharOk, CharText;
    assert ([c] + rest)[1..] == rest;
  }

  // ---- numbers ------------------------------------------------------------------------------------

  datatype Exponent = Exponent(letter: Byte, sign: Bytes, digits: Bytes)

  datatype Lexeme = Lexeme(sign: Bytes, whole: Bytes, frac: Option<Bytes>, exp: Option<Exponent>)

  predicate SignOk(w: Bytes) {
    w == [] || w == ['+'] || w == ['-']
  }

  predicate DigitsOk(w: Bytes) {
    w != [] && forall i :: 0 <= i < |w| ==> 0x30 <= w[i] as int <= 0x39
  }

  predicate ExpOk(e: Option<Exponent>) {
    e.Some? ==> (e.value.letter == 'e' || e.value.letter == 'E') && SignOk(e.value.sign) && DigitsOk(e.value.digits)
  }

  /** Either sign may lead, zeros may lead, and a point has digits on both sides. */
  predicate LexemeOk(n: Lexeme) {
    SignOk(n.sign) && DigitsOk(n.whole) && (n.frac.Some? ==> DigitsOk(n.frac.value)) && ExpOk(n.exp)
  }

  function FracText(f: Option<Bytes>): Bytes {
    if f.None? then [] else ['.'] + f.value
  }

  function ExpText(e: Option<Exponent>): Bytes {
    if e.None? then [] else [e.value.letter] + e.value.sign + e.value.digits
  }

  function LexemeText(n: Lexeme): Bytes {
    n.sign + n.whole + FracText(n.frac) + ExpText(n.exp)
  }

  /** A byte that no number goes on with. */
  predicate Stops(c: Byte) {
    !Digit(c) && c != '.' && c != 'e' && c != 'E'
  }

  lemma {:induction false} DigitsComplete(s: Bytes, p: nat, d: Bytes)
    requires Spells(s, p, d) && (forall i :: 0 <= i < |d| ==> Digit(d[i])) && !Digit(At(s, p + |d|))
    ensures Digits(s, p) == p + |d|
    decreases |d|
  {
    if d != [] {
      SpellsAt(s, p, d, 0);
      assert d == [d[0]] + d[1..];
      SpellsParts(s, p, [d[0]], d[1..]);
      DigitsComplete(s, p + 1, d[1..]);
    }
  }

  lemma {:induction false} DigitsSound(s: Bytes, p: nat) returns (d: Bytes)
    requires p <= |s|
    ensures Spells(s, p, d) && Digits(s, p) == p + |d| && (d != [] ==> DigitsOk(d)) && !Digit(At(s, p + |d|))
    decreases |s| - p
  {
    if Digit(At(s, p)) {
      var rest := DigitsSound(s, p + 1);
      d := [s[p]] + rest;
      SpellsByte(s, p, s[p]);
      SpellsBoth(s, p, [s[p]], rest);
    } else {
      d := [];
    }
  }

  lemma SignComplete(s: Bytes, p: nat, w: Bytes, c: Byte)
    requires SignOk(w) && Spells(s, p, w) && At(s, p + |w|) == c && Digit(c)
    ensures Sign(s, p) == p + |w|
  {
    if w != [] {
      SpellsAt(s, p, w, 0);
    }
  }

  lemma SignSound(s: Bytes, p: nat) returns (w: Bytes)
    requires p <= |s|
    ensures SignOk(w) && Spells(s, p, w) && Sign(s, p) == p + |w|
  {
    if At(s, p) == '+' || At(s, p) == '-' {
      w := [s[p]];
      SpellsByte(s, p, s[p]);
    } else {
      w := [];
    }
  }

  lemma ExpComplete(s: Bytes, p: nat, e: Option<Exponent>)
    requires ExpOk(e) && Spells(s, p, ExpText(e)) && Stops(At(s, p + |ExpText(e)|))
    ensures ExpEnd(s, p) == Some(p + |ExpText(e)|)
  {
    hide *;
    if e.Some? {
      ExpIs(e.value);
      ExpParts(s, p, e.value);
      ExpDigits(s, p, e.value);
    } else {
      NoExp(s, p);
    }
  }

  lemma NoExp(s: Bytes, p: nat)
    ensures ExpText(None) == [] && ExpOk(None) && (Stops(At(s, p)) ==> ExpEnd(s, p) == Some(p))
    ensures p <= |s| ==> Spells(s, p, ExpText(None))
  {
    hide Digits, Sign;
  }

  lemma ExpIs(e: Exponent)
    ensures ExpText(Some(e)) == [e.letter] + e.sign + e.digits
    ensures ExpOk(Some(e)) <==> (e.letter == 'e' || e.letter == 'E') && SignOk(e.sign) && DigitsOk(e.digits)
  {
    hide DigitsOk;
  }

  lemma ExpParts(s: Bytes, p: nat, e: Exponent)
    requires Spells(s, p, [e.letter] + e.sign + e.digits)
    ensures Spells(s, p, [e.letter]) && Spells(s, p + 1, e.sign) && Spells(s, p + 1 + |e.sign|, e.digits)
  {
    hide Spells;
    SpellsParts(s, p, [e.letter] + e.sign, e.digits);
    SpellsParts(s, p, [e.letter], e.sign);
  }

  lemma ExpDigits(s: Bytes, p: nat, e: Exponent)
    requires (e.letter == 'e' || e.letter == 'E') && SignOk(e.sign) && DigitsOk(e.digits)
    requires Spells(s, p, [e.letter]) && Spells(s, p + 1, e.sign) && Spells(s, p + 1 + |e.sign|, e.digits)
    requires Stops(At(s, p + 1 + |e.sign| + |e.digits|))
    ensures ExpEnd(s, p) == Some(p + 1 + |e.sign| + |e.digits|)
  {
    hide Spells, Digits, Sign, At;
    SpellsAt(s, p, [e.letter], 0);
    SpellsAt(s, p + 1 + |e.sign|, e.digits, 0);
    SignComplete(s, p + 1, e.sign, e.digits[0]);
    DigitsComplete(s, p + 1 + |e.sign|, e.digits);
  }

  lemma ExpSound(s: Bytes, p: nat) returns (e: Option<Exponent>)
    requires p <= |s| && ExpEnd(s, p).Some?
    ensures ExpOk(e) && Spells(s, p, ExpText(e)) && ExpEnd(s, p) == Some(p + |ExpText(e)|)
  {
    hide *;
    ExpUnfold(s, p);
    if At(s, p) == 'e' || At(s, p) == 'E' {
      var sign := SignSound(s, p + 1);
      var d := DigitsSound(s, p + 1 + |sign|);
      e := Some(Exponent(s[p], sign, d));
      ExpJoins(s, p, e.value);
      ExpIs(e.value);
    } else {
      e := None;
      NoExp(s, p);
    }
  }

  lemma ExpUnfold(s: Bytes, p: nat)
    requires p <= |s|
    ensures if At(s, p) == 'e' || At(s, p) == 'E' then
        && p < |s| && s[p] == At(s, p)
        && var q := Sign(s, p + 1); ExpEnd(s, p) == if Digits(s, q) == q then None else Some(Digits(s, q))
      else ExpEnd(s, p) == Some(p)
  {
    hide Sign, Digits;
  }

  lemma ExpJoins(s: Bytes, p: nat, e: Exponent)
    requires p < |s| && s[p] == e.letter && Spells(s, p + 1, e.sign) && Spells(s, p + 1 + |e.sign|, e.digits)
    ensures Spells(s, p, ExpText(Some(e))) && |ExpText(Some(e))| == 1 + |e.sign| + |e.digits|
  {
    hide Spells;
    SpellsByte(s, p, e.letter);
    SpellsBoth(s, p, [e.letter], e.sign);
    SpellsBoth(s, p, [e.letter] + e.sign, e.digits);
  }

  lemma FracComplete(s: Bytes, p: nat, f: Option<Bytes>, e: Option<Exponent>)
    requires (f.Some? ==> DigitsOk(f.value)) && ExpOk(e) && Spells(s, p, FracText(f)) &&
      Spells(s, p + |FracText(f)|, ExpText(e))
    requires Stops(At(s, p + |FracText(f)| + |ExpText(e)|))
    ensures !Digit(At(s, p)) && AfterWhole(s, p) == Some(p + |FracText(f)| + |ExpText(e)|)
  {
    hide *;
    var q := p + |FracText(f)|;
    ExpComplete(s, q, e);
    ExpHead(s, q, e);
    if f.Some? {
      PointComplete(s, p, f.value);
    } else {
      NoPoint(s, p);
    }
  }

  lemma NoPoint(s: Bytes, p: nat)
    ensures FracText(None) == [] && (At(s, p) != '.' ==> AfterWhole(s, p) == ExpEnd(s, p))
  {
    hide ExpEnd, Digits;
  }

  lemma PointComplete(s: Bytes, p: nat, d: Bytes)
    requires DigitsOk(d) && Spells(s, p, FracText(Some(d))) && !Digit(At(s, p + |FracText(Some(d))|))
    ensures !Digit(At(s, p)) && AfterWhole(s, p) == ExpEnd(s, p + |FracText(Some(d))|)
  {
    hide Spells, Digits, ExpEnd, At;
    SpellsParts(s, p, ['.'], d);
    SpellsAt(s, p, ['.'], 0);
    DigitsComplete(s, p + 1, d);
  }

  lemma ExpHead(s: Bytes, q: nat, e: Option<Exponent>)
    requires ExpOk(e) && Spells(s, q, ExpText(e)) && Stops(At(s, q + |ExpText(e)|))
    ensures !Digit(At(s, q)) && At(s, q) != '.'
  {
    if e.Some? {
      SpellsAt(s, q, ExpText(e), 0);
    }
  }

  /** NumEnd behind the digits before the point. */
  function AfterWhole(s: Bytes, b: nat): Option<nat> {
    if At(s, b) == '.' then
      var c := Digits(s, b + 1);
      if c == b + 1 then None else ExpEnd(s, c)
    else ExpEnd(s, b)
  }

  lemma NumIs(s: Bytes, p: nat)
    ensures var a := Sign(s, p); var b := Digits(s, a); NumEnd(s, p) == if b == a then None else AfterWhole(s, b)
  {
    hide Sign, Digits, ExpEnd;
  }

  /** A number as written, before a byte that it does not go on with, is read to its end. */
  lemma NumberComplete(s: Bytes, p: nat, n: Lexeme)
    requires LexemeOk(n) && Spells(s, p, LexemeText(n)) && Stops(At(s, p + |LexemeText(n)|))
    ensures NumEnd(s, p) == Some(p + |LexemeText(n)|)
    ensures Digit(At(s, p)) || At(s, p) == '+' || At(s, p) == '-'
  {
    hide *;
    var a := p + |n.sign|;
    LexemeParts(s, p, n);
    WholeStarts(s, p, n);
    FracComplete(s, a + |n.whole|, n.frac, n.exp);
    DigitsComplete(s, a, n.whole);
    NumIs(s, p);
  }

  lemma LexemeParts(s: Bytes, p: nat, n: Lexeme)
    requires LexemeOk(n) && Spells(s, p, LexemeText(n))
    ensures var a := p + |n.sign|; var b := a + |n.whole|; var c := b + |FracText(n.frac)|;
      && Spells(s, p, n.sign) && Spells(s, a, n.whole) && Spells(s, b, FracText(n.frac)) && Spells(s, c, ExpText(n.exp))
      && c + |ExpText(n.exp)| == p + |LexemeText(n)|
    ensures (n.frac.Some? ==> DigitsOk(n.frac.value)) && ExpOk(n.exp)
  {
    hide Spells, FracText, ExpText, ExpOk, DigitsOk;
    SpellsParts(s, p, n.sign + n.whole + FracText(n.frac), ExpText(n.exp));
    SpellsParts(s, p, n.sign + n.whole, FracText(n.frac));
    SpellsParts(s, p, n.sign, n.whole);
  }

  lemma WholeStarts(s: Bytes, p: nat, n: Lexeme)
    requires LexemeOk(n) && Spells(s, p, n.sign) && Spells(s, p + |n.sign|, n.whole)
    ensures n.whole != [] && (forall i :: 0 <= i < |n.whole| ==> Digit(n.whole[i])) && Sign(s, p) == p + |n.sign|
    ensures Digit(At(s, p)) || At(s, p) == '+' || At(s, p) == '-'
  {
    hide Spells, Sign, ExpOk;
    SpellsAt(s, p + |n.sign|, n.whole, 0);
    if n.sign != [] {
      SpellsAt(s, p, n.sign, 0);
    }
    SignComplete(s, p, n.sign, n.whole[0]);
  }

  lemma FracSound(s: Bytes, b: nat) returns (f: Option<Bytes>, e: Option<Exponent>)
    requires b <= |s| && AfterWhole(s, b).Some?
    ensures (f.Some? ==> DigitsOk(f.value)) && ExpOk(e)
    ensures Spells(s, b, FracText(f)) && Spells(s, b + |FracText(f)|, ExpText(e))
    ensures AfterWhole(s, b) == Some(b + |FracText(f)| + |ExpText(e)|)
  {
    if At(s, b) == '.' {
      var d := DigitsSound(s, b + 1);
      f := Some(d);
      SpellsByte(s, b, '.');
      hide Spells, Digits, ExpEnd, ExpText;
      SpellsBoth(s, b, ['.'], d);
      e := ExpSound(s, b + 1 + |d|);
    } else {
      f := None;
      e := ExpSound(s, b);
    }
  }

  /** What is read as a number is one. */
  lemma NumberSound(s: Bytes, p: nat) returns (n: Lexeme)
    requires p <= |s| && NumEnd(s, p).Some?
    ensures LexemeOk(n) && Spells(s, p, LexemeText(n)) && NumEnd(s, p) == Some(p + |LexemeText(n)|)
  {
    hide Spells, NumEnd, Digits, Sign, AfterWhole, FracText, ExpText;
    NumIs(s, p);
    var sign := SignSound(s, p);
    var d := DigitsSound(s, p + |sign|);
    SpellsBoth(s, p, sign, d);
    var f, e := FracSound(s, p + |sign| + |d|);
    n := Lexeme(sign, d, f, e);
    SpellsBoth(s, p, sign + d, FracText(f));
    SpellsBoth(s, p, sign + d + FracText(f), ExpText(e));
  }
}
