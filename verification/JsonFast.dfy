/** The stateless fast tokenizer, and its agreement with the strict one. */
module JsonFast {
  import opened Collections
  import opened JsonTokens
  import opened JsonTree
  import opened JsonSound

  predicate IsUseless(c: char) {
    IsWhitespace(c) || c == ':' || c == ','
  }

  predicate IsNumberByte(c: char) {
    IsDigit(c) || c == '-' || c == '.' || c == 'e' || c == 'E'
  }

  function SkipUseless(data: string, i: nat): (r: nat)
    requires i <= |data|
    ensures i <= r <= |data|
    decreases |data| - i
  {
    if i < |data| && IsUseless(data[i]) then SkipUseless(data, i + 1) else i
  }

  function SkipNumber(data: string, i: nat): (r: nat)
    requires i <= |data|
    ensures i <= r <= |data|
    decreases |data| - i
  {
    if i < |data| && IsNumberByte(data[i]) then SkipNumber(data, i + 1) else i
  }

  /** Literals are recognised by their first byte and must not touch the end of the input. */
  function FastWord(data: string, i: nat, n: nat, kind: Kind): (nat, Token)
    requires i <= |data|
  {
    if i + n >= |data| then (i, Token(Invalid, data[i..])) else (i + n, Token(kind, data[i..i + n]))
  }

  /** The token that the byte at i begins. */
  function FastAt(data: string, i: nat): (nat, Token)
    requires i < |data|
  {
    var c := data[i];
    if c == 'n' then FastWord(data, i, 4, Null)
    else if c == 't' then FastWord(data, i, 4, True)
    else if c == 'f' then FastWord(data, i, 5, False)
    else if c == '"' then
      match ScanString(data, i + 1)
      case Ok(end) => (end, Token(String, data[i..end]))
      case _ => (i, Token(Invalid, data[i..]))
    else if c == '{' then (i + 1, Token(Object, data[i..i + 1]))
    else if c == '}' then (i + 1, Token(CloseObject, data[i..i + 1]))
    else if c == '[' then (i + 1, Token(Array, data[i..i + 1]))
    else if c == ']' then (i + 1, Token(CloseArray, data[i..i + 1]))
    else if IsDigit(c) || c == '-' then
      var end := SkipNumber(data, i);
      (end, Token(Number, data[i..end]))
    else (i, Token(Invalid, data[i..i + 1]))
  }

  function FastNext(data: string, i0: nat): (nat, Token)
    requires i0 <= |data|
  {
    var i := SkipUseless(data, i0);
    if i == |data| then (i, NONE) else FastAt(data, i)
  }

  class IterFast {
    const data: string
    var i: nat

    constructor (data: string)
      ensures this.data == data && i == 0
    {
      this.data := data;
      i := 0;
    }

    method SkipUselessBytes()
      requires i <= |data|
      modifies this`i
      ensures i == SkipUseless(data, old(i))
    {
      while i < |data| && IsUseless(data[i])
        invariant i <= |data| && SkipUseless(data, i) == SkipUseless(data, old(i))
      {
        i := i + 1;
      }
    }

    method ReadString() returns (t: Token)
      requires i < |data|
      modifies this`i
      ensures (i, t) == match ScanString(data, old(i) + 1)
                        case Ok(end) => (end, Token(String, data[old(i)..end]))
                        case _ => (old(i), Token(Invalid, data[old(i)..]))
    {
      var j := i + 1;
      while j < |data|
        invariant i + 1 <= j <= |data| && i == old(i) && ScanString(data, j) == ScanString(data, i + 1)
      {
        if data[j] == '"' && data[j - 1] != '\\' {
          t := Token(String, data[i..j + 1]);
          i := j + 1;
          return;
        }
        j := j + 1;
      }
      t := Token(Invalid, data[i..]);
    }

    method ReadNumber() returns (t: Token)
      requires i < |data|
      modifies this`i
      ensures i == SkipNumber(data, old(i)) && t == Token(Number, data[old(i)..i])
    {
      var start := i;
      while i < |data| && IsNumberByte(data[i])
        invariant start <= i <= |data| && SkipNumber(data, i) == SkipNumber(data, start)
      {
        i := i + 1;
      }
      t := Token(Number, data[start..i]);
    }

    method ReadWord(n: nat, kind: Kind) returns (t: Token)
      requires i <= |data|
      modifies this`i
      ensures (i, t) == FastWord(data, old(i), n, kind)
    {
      if i + n >= |data| {
        return Token(Invalid, data[i..]);
      }
      t := Token(kind, data[i..i + n]);
      i := i + n;
    }

    method ReadBracket(kind: Kind) returns (t: Token)
      requires i < |data|
      modifies this`i
      ensures i == old(i) + 1 && t == Token(kind, data[old(i)..i])
    {
      t := Token(kind, data[i..i + 1]);
      i := i + 1;
    }

    method Next() returns (t: Token)
      requires i <= |data|
      modifies this`i
      ensures (i, t) == FastNext(data, old(i))
    {
      SkipUselessBytes();
      if i >= |data| {
        return NONE;
      }
      match data[i]
      case 'n' => t := ReadWord(4, Null);
      case 't' => t := ReadWord(4, True);
      case 'f' => t := ReadWord(5, False);
      case '"' => t := ReadString();
      case '{' => t := ReadBracket(Object);
      case '}' => t := ReadBracket(CloseObject);
      case '[' => t := ReadBracket(Array);
      case ']' => t := ReadBracket(CloseArray);
      case c =>
        if IsDigit(c) || c == '-' {
          t := ReadNumber();
        } else {
          t := Token(Invalid, data[i..i + 1]);
        }
    }
  }

  // ---- agreement --------------------------------------------------------------------------------

  lemma {:induction false} SkipsTo(data: string, i: nat, j: nat)
    requires i <= j < |data| && !IsUseless(data[j]) && forall k :: i <= k < j ==> IsUseless(data[k])
    ensures SkipUseless(data, i) == j
    decreases j - i
  {
    if i < j {
      SkipsTo(data, i + 1, j);
    }
  }

  /** The fast scan covers a strict number and stops where it does, if no number byte follows. */
  lemma {:induction false} NumberCovered(data: string, i: nat, f: bool, e: bool)
    requires i <= |data| && ScanDigits(data, i, f, e).Ok?
    ensures forall k :: i <= k < ScanDigits(data, i, f, e).end ==> IsNumberByte(data[k])
    decreases |data| - i
  {
    if i < |data| {
      if IsDigit(data[i]) {
        NumberCovered(data, i + 1, f, e);
      } else if !f && data[i] == '.' {
        NumberCovered(data, i + 2, true, e);
      } else if !e && (data[i] == 'e' || data[i] == 'E') {
        var j := if i + 1 < |data| && data[i + 1] == '-' then i + 2 else i + 1;
        NumberCovered(data, j + 1, true, true);
      }
    }
  }

  lemma {:induction false} SkipsNumber(data: string, i: nat, end: nat)
    requires i <= end <= |data| && (forall k :: i <= k < end ==> IsNumberByte(data[k]))
    requires end < |data| ==> !IsNumberByte(data[end])
    ensures SkipNumber(data, i) == end
    decreases end - i
  {
    if i < end {
      SkipsNumber(data, i + 1, end);
    }
  }

  /** What the next strict step, or the end of the run, shows about the byte after a token. */
  ghost predicate Stops(data: string, i: nat) {
    i < |data| && !IsNumberByte(data[i])
  }

  /** Tokens whose end the fast tokenizer cannot tell by themselves. */
  predicate OpenEnded(kind: Kind) {
    kind == Number || kind == Null || kind == True || kind == False
  }

  lemma ValueSame(data: string, i: nat, st: St)
    requires i <= st.i < |data| && (forall k :: i <= k < st.i ==> IsUseless(data[k]))
    requires ReadValue(data, st).1.kind != Invalid
    requires OpenEnded(ReadValue(data, st).1.kind) ==> Stops(data, ReadValue(data, st).0.i)
    ensures FastNext(data, i) == (ReadValue(data, st).0.i, ReadValue(data, st).1)
  {
    hide ScanString, ScanDigits, SkipNumber, SkipUseless;
    SkipsTo(data, i, st.i);
    var c := data[st.i];
    if IsDigit(c) || c == '-' {
      NumberSame(data, st);
    }
  }

  lemma NumberSame(data: string, st: St)
    requires st.i < |data| && ReadNumber(data, st).1.kind == Number && (IsDigit(data[st.i]) || data[st.i] == '-')
    requires Stops(data, ReadNumber(data, st).0.i)
    ensures SkipNumber(data, st.i) == ReadNumber(data, st).0.i
  {
    hide ScanDigits, SkipNumber;
    var a := if data[st.i] == '-' then st.i + 1 else st.i;
    NumberStart(data, a);
    NumberCovered(data, a + 1, false, false);
    SkipsNumber(data, st.i, ReadNumber(data, st).0.i);
  }

  lemma StringSame(data: string, i: nat, st: St)
    requires i <= st.i < |data| && (forall k :: i <= k < st.i ==> IsUseless(data[k]))
    requires ReadString(data, st).1.kind != Invalid
    ensures FastNext(data, i) == (ReadString(data, st).0.i, ReadString(data, st).1)
  {
    hide ScanString, SkipNumber, SkipUseless;
    SkipsTo(data, i, st.i);
  }

  lemma CloseSame(data: string, i: nat, st: St, kind: Kind)
    requires i <= st.i < |data| && (forall k :: i <= k < st.i ==> IsUseless(data[k]))
    requires (kind == CloseArray && data[st.i] == ']') || (kind == CloseObject && data[st.i] == '}')
    ensures FastNext(data, i) == (Close(data, st, kind).0.i, Close(data, st, kind).1)
  {
    hide ScanString, SkipNumber, SkipUseless;
    SkipsTo(data, i, st.i);
  }

  lemma DispatchSame(data: string, i: nat, st: St)
    requires i <= st.i < |data| && (forall k :: i <= k < st.i ==> IsWhitespace(data[k]))
    requires Dispatch(data, st).1.kind != Invalid
    requires OpenEnded(Dispatch(data, st).1.kind) ==> Stops(data, Dispatch(data, st).0.i)
    ensures FastNext(data, i) == (Dispatch(data, st).0.i, Dispatch(data, st).1)
  {
    hide FastNext, ReadValue, ReadString, Close, SkipWs;
    var c := data[st.i];
    if st.cur == 1 && c != ']' {
      ValueSame(data, i, st.(cur := 2));
    } else if st.cur == 3 && c != '}' {
      StringSame(data, i, st.(cur := 4));
    } else if (st.cur == 1 || st.cur == 2) && c == ']' {
      CloseSame(data, i, st, CloseArray);
    } else if (st.cur == 3 || st.cur == 5) && c == '}' {
      CloseSame(data, i, st, CloseObject);
    } else if st.cur == 2 {
      ValueSame(data, i, After(data, st).value);
    } else if st.cur == 4 {
      ValueSame(data, i, After(data, st).value.(cur := 5));
    } else if st.cur == 5 {
      StringSame(data, i, After(data, st).value.(cur := 4));
    } else {
      ValueSame(data, i, st);
    }
  }

  lemma NextSame(data: string, st: St)
    requires st.i <= |data| && Next(data, st).1.kind != Invalid
    requires OpenEnded(Next(data, st).1.kind) ==> Stops(data, Next(data, st).0.i)
    ensures FastNext(data, st.i) == (Next(data, st).0.i, Next(data, st).1)
  {
    hide FastNext, Dispatch;
    DispatchSame(data, st.i, st.(i := SkipWs(data, st.i)));
  }

  /**
   * Inside a container, a number or literal is followed by a separator or a closing bracket: the next step shows it.
   */
  lemma ScalarLeaves(data: string, st: St)
    requires st.i <= |data| && 1 <= st.cur <= 5 && OpenEnded(Next(data, st).1.kind)
    ensures var s := Next(data, st).0; (s.cur == 2 || s.cur == 5) && s.err == NoErr && s.i <= |data|
  {
    hide Dispatch, SkipWs;
    DispatchLeaves(data, st.(i := SkipWs(data, st.i)));
  }

  lemma DispatchLeaves(data: string, st: St)
    requires st.i < |data| && 1 <= st.cur <= 5 && st.err == NoErr && OpenEnded(Dispatch(data, st).1.kind)
    ensures var s := Dispatch(data, st).0; (s.cur == 2 || s.cur == 5) && s.err == NoErr && s.i <= |data|
  {
    hide ReadValue, ScanString, SkipWs;
    if st.cur == 1 {
      ReadLeaves(data, st.(cur := 2));
    } else if st.cur == 2 {
      ReadLeaves(data, After(data, st).value);
    } else if st.cur == 4 {
      ReadLeaves(data, After(data, st).value.(cur := 5));
    }
  }

  lemma ReadLeaves(data: string, st: St)
    requires st.i < |data| && OpenEnded(ReadValue(data, st).1.kind)
    ensures var s := ReadValue(data, st).0; s.cur == st.cur && s.err == st.err && s.i <= |data|
  {
    hide ScanString, ScanNumber, ScanWord;
  }

  lemma NextStops(data: string, st: St)
    requires st.i <= |data| && (st.cur == 2 || st.cur == 5) && Next(data, st).1.kind != Invalid
    ensures Stops(data, st.i)
  {
    hide ReadValue, ReadString, Close, After;
  }

  /** The tokens of n calls of the fast tokenizer from position i. */
  function FastTokens(data: string, i: nat, n: nat): seq<Token>
    decreases n
  {
    if n == 0 || i > |data| then [] else [FastNext(data, i).1] + FastTokens(data, FastNext(data, i).0, n - 1)
  }

  lemma StepSame(data: string, sts: seq<St>, toks: seq<Token>, k: nat)
    requires Bracketed(data, sts, toks) && k < |toks|
    ensures |sts| == |toks| + 1 && sts[k].i <= |data| && FastNext(data, sts[k].i) == (sts[k + 1].i, toks[k])
  {
    hide Next, FastNext, Mirrors;
    RunNext(data, sts, toks, k);
    if OpenEnded(toks[k].kind) {
      var fs := StackMirrors(data, sts, toks, k);
      StateRange(fs, sts[k]);
      ScalarLeaves(data, sts[k]);
      RunNext(data, sts, toks, k + 1);
      NextStops(data, sts[k + 1]);
    }
    NextSame(data, sts[k]);
  }

  lemma StateRange(fs: Frames, st: St)
    requires Mirrors(fs, st)
    ensures 1 <= st.cur <= 5
  {
  }

  lemma {:induction false} FastFrom(data: string, sts: seq<St>, toks: seq<Token>, k: nat)
    requires Bracketed(data, sts, toks) && k <= |toks|
    ensures |sts| == |toks| + 1 && FastTokens(data, sts[k].i, |toks| - k) == toks[k..]
    decreases |toks| - k
  {
    if k < |toks| {
      StepSame(data, sts, toks, k);
      FastFrom(data, sts, toks, k + 1);
      hide *;
      FastUnfold(data, sts[k].i, |toks| - k);
      FirstAndRest(toks, k);
    }
  }

  lemma FastUnfold(data: string, i: nat, n: nat)
    requires n > 0 && i <= |data|
    ensures FastTokens(data, i, n) == [FastNext(data, i).1] + FastTokens(data, FastNext(data, i).0, n - 1)
  {
    hide FastNext;
  }

  /**
   * Over one array or object that the strict tokenizer reads without error, the fast one yields the same kinds and
   * slices.
   */
  lemma FastAgrees(data: string, sts: seq<St>, toks: seq<Token>)
    requires Bracketed(data, sts, toks)
    ensures FastTokens(data, sts[0].i, |toks|) == toks
  {
    hide Bracketed;
    FastFrom(data, sts, toks, 0);
  }

  lemma {:induction false} SkipsBlanks(data: string, i: nat, w: string)
    requires At(data, i, w) && Blank(w) && i + |w| < |data| && !IsUseless(data[i + |w|])
    ensures SkipUseless(data, i) == i + |w|
    decreases |w|
  {
    if w != [] {
      AtFirst(data, i, w);
      SkipsBlanks(data, i + 1, w[1..]);
    }
  }

  /** Where the two differ: a literal that ends the input is none for the fast tokenizer. */
  lemma LiteralAtEnd(w: string, t: Token, rest: string)
    requires Blank(w) && ScalarOk(t) && (t.kind == Null || t.kind == True || t.kind == False)
    ensures FastNext(w + t.text + rest, 0) ==
      if rest == "" then (|w|, Token(Invalid, t.text)) else (|w| + |t.text|, t)
  {
    var data := w + t.text + rest;
    assert data[0..|w|] == w && data[|w|] == t.text[0];
    SkipsBlanks(data, 0, w);
    hide SkipUseless;
    assert data[|w|..|w| + |t.text|] == t.text;
    assert rest == "" ==> data[|w|..] == t.text;
  }

  /** No quote from position j on ends a string. */
  ghost predicate Unclosed(data: string, j: nat) {
    forall k :: 0 < j <= k < |data| && data[k] == '"' ==> data[k - 1] == '\\'
  }

  lemma {:induction false} ClosedExactly(data: string, j: nat)
    requires 0 < j <= |data|
    ensures ScanString(data, j).Ok? <==> !Unclosed(data, j)
    decreases |data| - j
  {
    if j < |data| {
      ClosedExactly(data, j + 1);
    }
  }

  /** A byte that some token begins with. */
  predicate Begins(c: char) {
    c in "ntf\"{}[]-0123456789"
  }

  lemma BeginsIs(c: char)
    ensures Begins(c) <==>
      || c == 'n' || c == 't' || c == 'f' || c == '"' || c == '{' || c == '}' || c == '[' || c == ']' || c == '-'
      || IsDigit(c)
  {
  }

  /** Where the fast tokenizer gives no token. */
  ghost predicate NoToken(data: string, j: nat)
    requires j <= |data|
  {
    || j == |data|
    || ((data[j] == 'n' || data[j] == 't') && |data| - j <= 4) || (data[j] == 'f' && |data| - j <= 5)
    || (data[j] == '"' && Unclosed(data, j + 1))
    || !Begins(data[j])
  }

  lemma FastStops(data: string, j: nat)
    requires j < |data|
    ensures FastAt(data, j).1.kind == Invalid <==> NoToken(data, j)
    ensures FastAt(data, j).1.kind == Invalid ==>
      FastAt(data, j) == (j, Token(Invalid, if Begins(data[j]) then data[j..] else [data[j]]))
  {
    ClosedExactly(data, j + 1);
    BeginsIs(data[j]);
    assert data[j..j + 1] == [data[j]];
    hide ScanString, SkipNumber, Begins, Unclosed;
  }

  /** When the fast tokenizer gives no token, and what it gives instead: the rest of the input, or the one byte. */
  lemma FastInvalid(data: string, i: nat)
    requires i <= |data|
    ensures FastNext(data, i).1.kind == Invalid <==> NoToken(data, SkipUseless(data, i))
    ensures var j := SkipUseless(data, i);
      FastNext(data, i).1.kind == Invalid ==>
        FastNext(data, i) == (j, Token(Invalid, if j < |data| && !Begins(data[j]) then [data[j]] else data[j..]))
  {
    var j := SkipUseless(data, i);
    hide SkipUseless, FastAt, Begins;
    if j < |data| {
      FastStops(data, j);
      hide NoToken;
    } else {
      assert data[j..] == [];
    }
  }
}
