/** The end of the input: when it is the end of a document, and that a document cut short is an error. */
module JsonTruncated {
  import opened Collections
  import opened JsonTokens
  import opened JsonTree
  import opened JsonSound
  import opened JsonComplete
  import opened JsonLevels

  // ---- no token and no error ----------------------------------------------------------------------

  lemma {:induction false} SkipsToEnd(data: string, i: nat)
    requires i <= |data|
    ensures SkipWs(data, i) == |data| <==> Blank(data[i..])
    decreases |data| - i
  {
    if i < |data| {
      assert data[i..] == [data[i]] + data[i + 1..];
      BlankFirst(data[i], data[i + 1..]);
      if IsWhitespace(data[i]) {
        SkipsToEnd(data, i + 1);
      }
    }
  }

  lemma BlankFirst(c: char, rest: string)
    ensures Blank([c] + rest) <==> IsWhitespace(c) && Blank(rest)
  {
    var w := [c] + rest;
    assert w[0] == c && w[1..] == rest;
    assert forall k :: 0 < k < |w| ==> w[k] == rest[k - 1];
    assert forall k :: 0 <= k < |rest| ==> rest[k] == w[k + 1];
  }

  /** Past whitespace a call gives a token or an error, and never both. */
  lemma DispatchAnswers(data: string, st: St)
    requires st.i < |data| && st.err == NoErr
    ensures Dispatch(data, st).1.kind == Invalid <==> Dispatch(data, st).0.err != NoErr
    ensures Dispatch(data, st).1.kind == Invalid ==> Dispatch(data, st).1 == NONE
    ensures st.i <= Dispatch(data, st).0.i <= |data|
  {
    hide ScanString, ScanNumber, ScanDigits, ScanWord, SkipWs, ReadValue, ReadString;
    if st.cur == 1 && data[st.i] != ']' {
      ValueAnswers(data, st.(cur := 2));
    } else if st.cur == 2 && data[st.i] == ',' && After(data, st).Some? {
      ValueAnswers(data, After(data, st).value);
    } else if st.cur == 4 && data[st.i] == ':' && After(data, st).Some? {
      ValueAnswers(data, After(data, st).value.(cur := 5));
    } else if st.cur == 3 && data[st.i] != '}' {
      StringAnswers(data, st.(cur := 4));
    } else if st.cur == 5 && data[st.i] == ',' && After(data, st).Some? {
      StringAnswers(data, After(data, st).value.(cur := 4));
    } else if st.cur == 0 || st.cur > 5 {
      ValueAnswers(data, st);
    }
  }

  ghost predicate Answers(data: string, st: St, r: (St, Token)) {
    && (r.1.kind == Invalid <==> r.0.err != NoErr) && (r.1.kind == Invalid ==> r.1 == NONE)
    && st.i <= r.0.i <= |data|
  }

  lemma ValueAnswers(data: string, st: St)
    requires st.i < |data| && st.err == NoErr
    ensures Answers(data, st, ReadValue(data, st))
  {
    hide ScanString, ScanNumber, ScanDigits;
  }

  lemma StringAnswers(data: string, st: St)
    requires st.i < |data| && st.err == NoErr
    ensures Answers(data, st, ReadString(data, st))
  {
    hide ScanString;
  }

  /** No token and no error: exactly outside all containers with only whitespace left. */
  lemma EndExactly(data: string, st: St)
    requires st.i <= |data| && st.err == NoErr
    ensures var (s, t) := Next(data, st);
      && (t.kind == Invalid && s.err == NoErr <==> st.cur == 0 && Blank(data[st.i..]))
      && (t.kind != Invalid ==> s.err == NoErr) && st.i <= s.i <= |data|
      && (st.cur != 0 && Blank(data[st.i..]) ==> s.err == UnexpectedEOF)
  {
    hide Dispatch, Blank;
    SkipsToEnd(data, st.i);
    var j := SkipWs(data, st.i);
    if j < |data| {
      DispatchAnswers(data, st.(i := j));
    }
  }

  lemma NextInside(data: string, st: St)
    requires st.i <= |data|
    ensures Next(data, st).0.i <= |data|
  {
    if st.err == NoErr {
      EndExactly(data, st);
    }
  }

  /** The machine after k calls of Next. */
  function Calls(data: string, st: St, k: nat): (r: St)
    requires st.i <= |data|
    ensures r.i <= |data|
    decreases k
  {
    if k == 0 then st else NextInside(data, st); Calls(data, Next(data, st).0, k - 1)
  }

  /** An error stays. */
  lemma {:induction false} Sticky(data: string, st: St, k: nat)
    requires st.i <= |data| && st.err != NoErr
    ensures Calls(data, st, k) == st
  {
    if k > 0 {
      Sticky(data, st, k - 1);
    }
  }

  // ---- scanning a text cut short ----------------------------------------------------------------

  lemma {:induction false} SkipCut(data: string, n: nat, i: nat)
    requires i <= n <= |data|
    ensures SkipWs(data[..n], i) == if SkipWs(data, i) <= n then SkipWs(data, i) else n
    decreases |data| - i
  {
    if i < n && IsWhitespace(data[i]) {
      SkipCut(data, n, i + 1);
    }
  }

  lemma {:induction false} StringCut(data: string, n: nat, j: nat)
    requires 0 < j <= n <= |data| && ScanString(data, j).Ok?
    ensures ScanString(data[..n], j) == if ScanString(data, j).end <= n then ScanString(data, j) else Eof
    decreases |data| - j
  {
    if j < n && !(data[j] == '"' && data[j - 1] != '\\') {
      StringCut(data, n, j + 1);
    }
  }

  ghost predicate NumberPart(full: Scan, cut: Scan, n: nat)
    requires full.Ok?
  {
    if full.end <= n then cut == full else cut == Eof || cut == Ok(n)
  }

  lemma {:induction false} NumberCut(data: string, n: nat, i: nat, f: bool, e: bool)
    requires i <= n <= |data|
    ensures ScanNumber(data, i, f, e).Ok? ==>
      NumberPart(ScanNumber(data, i, f, e), ScanNumber(data[..n], i, f, e), n)
    ensures ScanDigits(data, i, f, e).Ok? ==>
      NumberPart(ScanDigits(data, i, f, e), ScanDigits(data[..n], i, f, e), n)
    decreases |data| - i
  {
    if i < n {
      NumberCut(data, n, i + 1, f, e);
      NumberCut(data, n, i + 1, true, e);
      NumberCut(data, n, i + 1, true, true);
      if i + 1 < n {
        NumberCut(data, n, i + 2, true, true);
      }
    }
  }

  lemma WordCut(data: string, n: nat, i: nat, word: string)
    requires i <= n <= |data| && ScanWord(data, i, word).Ok?
    ensures ScanWord(data[..n], i, word) == if ScanWord(data, i, word).end <= n then ScanWord(data, i, word) else Eof
  {
    if i + |word| <= n {
      assert data[..n][i..i + |word|] == data[i..i + |word|];
    }
  }

  /** What a call gives on the text cut off at n, if the whole text gives a token. */
  ghost predicate Cut(n: nat, full: (St, Token), cut: (St, Token)) {
    if full.0.i <= n then cut == full
    else (cut.0.err == UnexpectedEOF && cut.0.i <= n) ||
         (full.1.kind == Number && cut.1.kind == Number && cut.0 == full.0.(i := n))
  }

  lemma EmitCut(data: string, n: nat, st: St, kind: Kind, full: Scan, cut: Scan)
    requires st.i < n <= |data| && full.Ok? && st.i <= full.end <= |data|
    requires if full.end <= n then cut == full else cut == Eof || (kind == Number && cut == Ok(n))
    ensures Cut(n, Emit(data, st, kind, full), Emit(data[..n], st, kind, cut))
  {
    if full.end <= n {
      assert data[..n][st.i..full.end] == data[st.i..full.end];
    }
  }

  lemma ReadStringCut(data: string, n: nat, st: St)
    requires st.i < n <= |data| && ReadString(data, st).1.kind != Invalid
    ensures Cut(n, ReadString(data, st), ReadString(data[..n], st))
  {
    hide ScanString;
    StringCut(data, n, st.i + 1);
    EmitCut(data, n, st, String, ScanString(data, st.i + 1), ScanString(data[..n], st.i + 1));
  }

  lemma ReadNumberCut(data: string, n: nat, st: St)
    requires st.i < n <= |data| && ReadNumber(data, st).1.kind != Invalid
    ensures Cut(n, ReadNumber(data, st), ReadNumber(data[..n], st))
  {
    hide ScanNumber;
    var a := if data[st.i] == '-' then st.i + 1 else st.i;
    NumberCut(data, n, a, false, false);
    EmitCut(data, n, st, Number, ScanNumber(data, a, false, false), ScanNumber(data[..n], a, false, false));
  }

  lemma WordEmitCut(data: string, n: nat, st: St, kind: Kind, word: string)
    requires st.i < n <= |data| && ScanWord(data, st.i, word).Ok? && kind != Number
    ensures Cut(n, Emit(data, st, kind, ScanWord(data, st.i, word)),
                Emit(data[..n], st, kind, ScanWord(data[..n], st.i, word)))
  {
    WordCut(data, n, st.i, word);
    hide ScanWord;
    EmitCut(data, n, st, kind, ScanWord(data, st.i, word), ScanWord(data[..n], st.i, word));
  }

  lemma ReadValueCut(data: string, n: nat, st: St)
    requires st.i < n <= |data| && ReadValue(data, st).1.kind != Invalid
    ensures Cut(n, ReadValue(data, st), ReadValue(data[..n], st))
  {
    var c := data[st.i];
    assert data[..n][st.i] == c;
    hide ScanWord, Cut;
    if c == 'n' {
      WordEmitCut(data, n, st, Null, "null");
    } else if c == 't' {
      WordEmitCut(data, n, st, True, "true");
    } else if c == 'f' {
      WordEmitCut(data, n, st, False, "false");
    } else if c == '"' {
      hide Emit, ReadString;
      ReadStringCut(data, n, st);
    } else if c == '{' || c == '[' {
      OpenCut(data, n, st, if c == '{' then Object else Array, if c == '{' then 3 else 1);
    } else {
      hide Emit, ReadNumber;
      ReadNumberCut(data, n, st);
    }
  }

  lemma OpenCut(data: string, n: nat, st: St, kind: Kind, cur: nat)
    requires st.i < n <= |data|
    ensures Cut(n, JsonTokens.Open(data, st, kind, cur), JsonTokens.Open(data[..n], st, kind, cur))
    ensures Cut(n, Close(data, st, kind), Close(data[..n], st, kind))
  {
    assert data[..n][st.i..st.i + 1] == data[st.i..st.i + 1];
  }

  /** Stepping over a separator: the same, or the end. */
  lemma AfterCut(data: string, n: nat, st: St)
    requires st.i < n <= |data| && After(data, st).Some?
    ensures After(data[..n], st) == if After(data, st).value.i < n then After(data, st) else None
  {
    SkipCut(data, n, st.i + 1);
  }

  lemma DispatchCut(data: string, n: nat, st: St)
    requires st.i < n <= |data| && Dispatch(data, st).1.kind != Invalid
    ensures Cut(n, Dispatch(data, st), Dispatch(data[..n], st))
  {
    var c := data[st.i];
    assert data[..n][st.i] == c;
    hide ReadValue, ReadString, Close, SkipWs;
    if (c == ',' && (st.cur == 2 || st.cur == 5)) || (c == ':' && st.cur == 4) {
      AfterCut(data, n, st);
      var a := After(data, st).value;
      hide After;
      if a.i < n {
        if st.cur == 2 {
          ReadValueCut(data, n, a);
        } else if st.cur == 4 {
          ReadValueCut(data, n, a.(cur := 5));
        } else {
          ReadStringCut(data, n, a.(cur := 4));
        }
      } else if st.cur == 2 {
        ReadsOn(data, a);
      } else if st.cur == 4 {
        ReadsOn(data, a.(cur := 5));
      } else {
        ReadsOn(data, a.(cur := 4));
      }
    } else if (c == ']' && (st.cur == 1 || st.cur == 2)) || (c == '}' && (st.cur == 3 || st.cur == 5)) {
      OpenCut(data, n, st, if c == ']' then CloseArray else CloseObject, 0);
    } else if st.cur == 1 {
      ReadValueCut(data, n, st.(cur := 2));
    } else if st.cur == 3 {
      ReadStringCut(data, n, st.(cur := 4));
    } else if st.cur == 0 || st.cur > 5 {
      ReadValueCut(data, n, st);
    }
  }

  /** A token has at least one byte. */
  lemma ReadsOn(data: string, st: St)
    requires st.i < |data|
    ensures ReadValue(data, st).1.kind != Invalid ==> ReadValue(data, st).0.i > st.i
    ensures ReadString(data, st).1.kind != Invalid ==> ReadString(data, st).0.i > st.i
  {
    hide ScanNumber, ScanString;
  }

  lemma NextCut(data: string, n: nat, st: St)
    requires st.i <= n <= |data| && st.err == NoErr && st.cur != 0 && Next(data, st).1.kind != Invalid
    ensures Cut(n, Next(data, st), Next(data[..n], st))
  {
    SkipCut(data, n, st.i);
    var j := SkipWs(data, st.i);
    hide Dispatch;
    if j < n {
      DispatchCut(data, n, st.(i := j));
    } else {
      hide SkipWs;
      DispatchMoves(data, st.(i := j));
    }
  }

  lemma DispatchMoves(data: string, st: St)
    requires st.i < |data| && Dispatch(data, st).1.kind != Invalid
    ensures Dispatch(data, st).0.i > st.i
  {
    hide ReadValue, ReadString, SkipWs;
    ReadsOn(data, st);
    ReadsOn(data, st.(cur := 2));
    ReadsOn(data, st.(cur := 4));
    if After(data, st).Some? {
      var a := After(data, st).value;
      ReadsOn(data, a);
      ReadsOn(data, a.(cur := 5));
      ReadsOn(data, a.(cur := 4));
    }
  }

  // ---- documents cut short ------------------------------------------------------------------------

  /** From a state inside the brackets, the calls left end in the error. */
  lemma {:induction false} RestIsCut(data: string, n: nat, sts: seq<St>, toks: seq<Token>, k: nat)
    requires Bracketed(data, sts, toks) && 0 < k < |toks| && sts[k].i <= n < sts[|toks|].i && n <= |data|
    requires forall m :: 0 <= m <= |toks| ==> sts[m].err == NoErr
    requires IsClosing(toks[|toks| - 1])
    ensures Calls(data[..n], sts[k], |toks| - k).err == UnexpectedEOF
    decreases |toks| - k
  {
    hide Next, Calls, IterRun;
    RunNext(data, sts, toks, k);
    NextCut(data, n, sts[k]);
    var next := Next(data[..n], sts[k]).0;
    OneCall(data[..n], sts[k], |toks| - k);
    if sts[k + 1].i <= n {
      RestIsCut(data, n, sts, toks, k + 1);
    } else if next.err != NoErr {
      Sticky(data[..n], next, |toks| - k - 1);
    } else {
      AtTheEnd(data[..n], next);
      OneCall(data[..n], next, |toks| - k - 1);
      Sticky(data[..n], Next(data[..n], next).0, |toks| - k - 2);
    }
  }

  predicate IsClosing(t: Token) { t.kind == CloseArray || t.kind == CloseObject }

  lemma OneCall(data: string, st: St, k: nat)
    requires st.i <= |data| && k > 0
    ensures Next(data, st).0.i <= |data| && Calls(data, st, k) == Calls(data, Next(data, st).0, k - 1)
  {
    NextInside(data, st);
  }

  lemma AtTheEnd(data: string, st: St)
    requires st.i == |data| && st.cur != 0 && st.err == NoErr
    ensures Next(data, st).0.err == UnexpectedEOF && Next(data, st).0.i <= |data|
  {
  }

  lemma {:induction false} ErrorFree(data: string, sts: seq<St>, toks: seq<Token>, k: nat)
    requires IterRun(data, sts, toks) && sts[0].err == NoErr && k <= |toks|
    ensures sts[k].err == NoErr
  {
    hide Next;
    if k > 0 {
      ErrorFree(data, sts, toks, k - 1);
      RunNext(data, sts, toks, k - 1);
      EndExactly(data, sts[k - 1]);
    }
  }

  lemma LastToken(v: Value)
    requires !v.Scalar?
    ensures |Tokens(v)| > 1 && IsClosing(Tokens(v)[|Tokens(v)| - 1])
  {
  }

  lemma OpenIs(data: string, st: St)
    requires st.i < |data| && (ReadValue(data, st).1.kind == Object || ReadValue(data, st).1.kind == Array)
    ensures ReadValue(data, st) ==
      if data[st.i] == '{' then JsonTokens.Open(data, st, Object, 3) else JsonTokens.Open(data, st, Array, 1)
    ensures data[st.i] == '{' || data[st.i] == '['
  {
    hide ScanNumber, ScanString, ScanWord;
  }

  lemma NextAtTop(data: string, st: St, j: nat)
    requires st.i <= |data| && st.cur == 0 && st.err == NoErr && SkipWs(data, st.i) == j < |data|
    ensures Next(data, st) == ReadValue(data, st.(i := j))
  {
    hide ReadValue, ReadString, Close, After;
  }

  lemma BracketIs(data: string, st: St)
    requires st.i < |data| && (data[st.i] == '{' || data[st.i] == '[')
    ensures ReadValue(data, st) ==
      if data[st.i] == '{' then JsonTokens.Open(data, st, Object, 3) else JsonTokens.Open(data, st, Array, 1)
  {
    hide ScanNumber, ScanString, ScanWord;
  }

  lemma BracketCut(data: string, st: St, n: nat)
    requires st.i < n <= |data| && (ReadValue(data, st).1.kind == Object || ReadValue(data, st).1.kind == Array)
    ensures ReadValue(data[..n], st) == ReadValue(data, st) && ReadValue(data, st).0.i == st.i + 1
  {
    hide ReadValue;
    OpenIs(data, st);
    assert data[..n][st.i] == data[st.i];
    assert data[..n][st.i..st.i + 1] == data[st.i..st.i + 1];
    BracketIs(data[..n], st);
  }

  /** The first call reads the opening bracket, whatever follows it. */
  lemma OpensCut(data: string, st: St, n: nat, j: nat)
    requires st.i <= j < n <= |data| && SkipWs(data, st.i) == j && st.cur == 0 && st.err == NoErr
    requires Next(data, st).1.kind == Object || Next(data, st).1.kind == Array
    ensures Next(data[..n], st) == Next(data, st) && Next(data, st).0.i == j + 1
  {
    SkipCut(data, n, st.i);
    hide *;
    NextAtTop(data, st, j);
    NextAtTop(data[..n], st, j);
    BracketCut(data, st.(i := j), n);
  }

  /** A document cut short behind its opening bracket is an error within as many calls as the document has tokens. */
  lemma TruncatedIsError(pre: string, w: string, v: Value, n: nat)
    requires WellFormed(v) && !v.Scalar? && Blank(w) && 1 <= n < |Text(v)|
    ensures Calls(pre + w + Text(v)[..n], St(|pre|, 0, [], NoErr), |Tokens(v)|).err == UnexpectedEOF
  {
    var data, e := pre + w + Text(v), |pre| + |w| + n;
    assert data == pre + w + Text(v) + "";
    assert data[..e] == pre + w + Text(v)[..n];
    hide *;
    var sts := TextIsBracketed(data, pre, w, v, "");
    TextStarts(data, pre, w, v, "");
    LastToken(v);
    CutAt(data, sts, Tokens(v), |pre|, |pre| + |w|, e);
  }

  lemma CutAt(data: string, sts: seq<St>, toks: seq<Token>, i: nat, j: nat, n: nat)
    requires Bracketed(data, sts, toks) && |toks| > 1 && IsClosing(toks[|toks| - 1])
    requires i == sts[0].i <= j < n <= |data| && SkipWs(data, i) == j && n < sts[|toks|].i
    ensures Calls(data[..n], St(i, 0, [], NoErr), |toks|).err == UnexpectedEOF
  {
    assert |sts| == |toks| + 1;
    hide Next, Calls, SkipWs, IterRun;
    var st := St(i, 0, [], NoErr);
    assert sts[0] == st;
    forall k | 0 <= k <= |toks| ensures sts[k].err == NoErr {
      ErrorFree(data, sts, toks, k);
    }
    RunNext(data, sts, toks, 0);
    OpensCut(data, st, n, j);
    OneCall(data[..n], st, |toks|);
    RestIsCut(data, n, sts, toks, 1);
  }

  // ---- a scalar as a document -----------------------------------------------------------------------

  lemma ValueBefore(data: string, st: St, t: Token)
    requires ScalarOk(t) && JsonTree.At(data, st.i, t.text) && st.i + |t.text| == |data|
    ensures st.i < |data| && ReadValue(data, st) == (st.(i := |data|), t)
  {
    var more := data + ",";
    assert data == more[..|data|];
    assert more[st.i..|data|] == more[..|data|][st.i..] == data[st.i..] == data[st.i..|data|];
    FirstByte(Scalar(t));
    hide ReadValue, ScalarOk;
    ScalarReads(more, st, t);
    assert t.kind != Invalid by { ScalarKind(t); }
    ReadValueCut(more, |data|, st);
  }

  lemma ScalarKind(t: Token)
    requires ScalarOk(t)
    ensures t.kind != Invalid
  {
  }

  lemma ReachesIs(data: string, st: St, st1: St)
    requires Reaches(data, st, st1)
    ensures st.i <= |data| && st1.i < |data| && Next(data, st) == ReadValue(data, st1)
  {
    hide Next, ReadValue;
  }

  lemma ScalarText(t: Token)
    requires ScalarOk(t)
    ensures Text(Scalar(t)) == t.text && WellFormed(Scalar(t))
  {
  }

  lemma EndsThere(data: string, x: string, rest: string)
    requires data == x + rest && rest != "" && Delimiter(rest[0])
    ensures Ends(data, |x|)
  {
    hide Delimiter;
  }

  lemma ScalarRead(data: string, i: nat, j: nat, t: Token)
    requires ScalarOk(t) && JsonTree.At(data, j, t.text) && Reaches(data, St(i, 0, [], NoErr), St(j, 0, [], NoErr))
    requires j + |t.text| == |data| || Ends(data, j + |t.text|)
    ensures Next(data, St(i, 0, [], NoErr)) == (St(j + |t.text|, 0, [], NoErr), t)
  {
    hide *;
    var st := St(j, 0, [], NoErr);
    ReachesIs(data, St(i, 0, [], NoErr), st);
    if j + |t.text| == |data| {
      ValueBefore(data, st, t);
    } else {
      ScalarReads(data, st, t);
    }
  }

  /** A scalar outside all containers is a token, at the end of the input too; a number must not go on. */
  lemma ScalarAtTop(data: string, pre: string, w: string, t: Token, rest: string)
    requires ScalarOk(t) && Blank(w) && data == pre + w + t.text + rest && (rest == "" || Delimiter(rest[0]))
    ensures Next(data, St(|pre|, 0, [], NoErr)) == (St(|pre| + |w| + |t.text|, 0, [], NoErr), t)
  {
    hide *;
    ScalarText(t);
    if rest != "" {
      EndsThere(data, pre + w + t.text, rest);
    }
    TextStarts(data, pre, w, Scalar(t), rest);
    ScalarRead(data, |pre|, |pre| + |w|, t);
  }

  // ---- where a syntax error is reported -------------------------------------------------------------

  /** Whitespace, and a separator with whitespace around it at most once. */
  ghost predicate Skipped(x: string) {
    || Blank(x)
    || exists a, c, b :: x == a + [c] + b && (c == ',' || c == ':') && Blank(a) && Blank(b)
  }

  lemma BlankSkipped(data: string, i: nat)
    requires i <= |data|
    ensures Blank(data[i..SkipWs(data, i)])
  {
  }

  lemma FailPlace(data: string, st: St)
    requires st.i < |data| && st.err == NoErr
    ensures ReadValue(data, st).0.err.Syntax? ==> ReadValue(data, st).0.err.pos == st.i
    ensures ReadString(data, st).0.err.Syntax? ==> ReadString(data, st).0.err.pos == st.i
  {
    hide ScanNumber, ScanString, ScanWord;
  }

  /** A syntax error names the byte behind what may be skipped before a token. */
  lemma SyntaxPlace(data: string, st: St)
    requires st.i <= |data| && st.err == NoErr && Next(data, st).0.err.Syntax?
    ensures var p := Next(data, st).0.err.pos;
      st.i <= p < |data| && Skipped(data[st.i..p]) && !IsWhitespace(data[p])
  {
    var j := SkipWs(data, st.i);
    BlankSkipped(data, st.i);
    assert j < |data|;
    hide Dispatch, SkipWs, Blank, Skipped;
    DispatchPlace(data, st.(i := j));
    var p := Next(data, st).0.err.pos;
    hide Next;
    SkippedOver(data, st.i, j, p);
  }

  lemma SkippedOver(data: string, i: nat, j: nat, p: nat)
    requires i <= j <= p < |data| && Blank(data[i..j])
    requires p > j ==> (data[j] == ',' || data[j] == ':') && Blank(data[j + 1..p])
    ensures Skipped(data[i..p])
  {
    hide Blank;
    if p > j {
      assert data[i..p] == data[i..j] + [data[j]] + data[j + 1..p];
    }
  }

  /** It is the byte there, or the one behind a separator. */
  lemma DispatchPlace(data: string, st: St)
    requires st.i < |data| && st.err == NoErr && !IsWhitespace(data[st.i]) && Dispatch(data, st).0.err.Syntax?
    ensures var p := Dispatch(data, st).0.err.pos;
      && st.i <= p < |data| && !IsWhitespace(data[p])
      && (p > st.i ==> (data[st.i] == ',' || data[st.i] == ':') && Blank(data[st.i + 1..p]))
  {
    hide ReadValue, ReadString, SkipWs, Blank;
    if (st.cur == 2 && data[st.i] == ',') || (st.cur == 4 && data[st.i] == ':') || (st.cur == 5 && data[st.i] == ',') {
      BlankSkipped(data, st.i + 1);
      var a := After(data, st).value;
      FailPlace(data, if st.cur == 2 then a else if st.cur == 4 then a.(cur := 5) else a.(cur := 4));
    } else {
      FailPlace(data, if st.cur == 1 then st.(cur := 2) else if st.cur == 3 then st.(cur := 4) else st);
    }
  }

  // ---- which error ----------------------------------------------------------------------------------

  lemma {:induction false} SkipMore(data: string, more: string, i: nat)
    requires i <= |data|
    ensures SkipWs(data, i) < |data| ==> SkipWs(data + more, i) == SkipWs(data, i)
    ensures SkipWs(data, i) == |data| && more != "" && !IsWhitespace(more[0]) ==> SkipWs(data + more, i) == |data|
    decreases |data| - i
  {
    if i < |data| {
      SkipMore(data, more, i + 1);
    }
  }

  lemma {:induction false} NumberMore(data: string, more: string, i: nat, f: bool, e: bool)
    requires i <= |data|
    ensures ScanNumber(data, i, f, e) == Bad ==> ScanNumber(data + more, i, f, e) == Bad
    ensures ScanDigits(data, i, f, e) == Bad ==> ScanDigits(data + more, i, f, e) == Bad
    decreases |data| - i
  {
    if i < |data| {
      NumberMore(data, more, i + 1, f, e);
      NumberMore(data, more, i + 1, true, e);
      NumberMore(data, more, i + 1, true, true);
      if i + 1 < |data| {
        NumberMore(data, more, i + 2, true, true);
      }
    }
  }

  lemma WordMore(data: string, more: string, i: nat, word: string)
    requires i <= |data|
    ensures ScanWord(data, i, word) == Bad ==> ScanWord(data + more, i, word) == Bad
  {
    if i + |word| <= |data| {
      assert (data + more)[i..i + |word|] == data[i..i + |word|];
    }
  }

  lemma {:induction false} StringNeverBad(data: string, j: nat)
    requires 0 < j <= |data|
    ensures ScanString(data, j) != Bad
    decreases |data| - j
  {
    if j < |data| {
      StringNeverBad(data, j + 1);
    }
  }

  lemma ValueMore(data: string, more: string, st: St)
    requires st.i < |data| && st.err == NoErr
    ensures ReadValue(data, st).0.err.Syntax? ==> ReadValue(data + more, st) == ReadValue(data, st)
    ensures ReadString(data, st).0.err.Syntax? ==> ReadString(data + more, st) == ReadString(data, st)
  {
    assert (data + more)[st.i] == data[st.i];
    NumberMore(data, more, if data[st.i] == '-' then st.i + 1 else st.i, false, false);
    StringNeverBad(data, st.i + 1);
    WordMore(data, more, st.i, "null");
    WordMore(data, more, st.i, "true");
    WordMore(data, more, st.i, "false");
    hide ScanNumber, ScanString, ScanWord;
  }

  /** A syntax error does not depend on what follows in the input. */
  lemma SyntaxStays(data: string, more: string, st: St)
    requires st.i <= |data| && st.err == NoErr && Next(data, st).0.err.Syntax?
    ensures Next(data + more, st) == Next(data, st)
  {
    SkipMore(data, more, st.i);
    var j := SkipWs(data, st.i);
    var at := st.(i := j);
    hide SkipWs;
    assert j < |data| && (data + more)[j] == data[j];
    DispatchMore(data, more, at);
    hide Dispatch;
  }

  lemma DispatchMore(data: string, more: string, st: St)
    requires st.i < |data| && st.err == NoErr && Dispatch(data, st).0.err.Syntax?
    ensures Dispatch(data + more, st) == Dispatch(data, st)
  {
    assert (data + more)[st.i] == data[st.i];
    hide SkipWs, ReadValue, ReadString;
    if (st.cur == 2 && data[st.i] == ',') || (st.cur == 4 && data[st.i] == ':') || (st.cur == 5 && data[st.i] == ',') {
      SkipMore(data, more, st.i + 1);
      var a := After(data, st).value;
      ValueMore(data, more, if st.cur == 2 then a else if st.cur == 4 then a.(cur := 5) else a.(cur := 4));
    } else {
      ValueMore(data, more, if st.cur == 1 then st.(cur := 2) else if st.cur == 3 then st.(cur := 4) else st);
    }
  }

  /** Bytes that no token goes on with, except for a string, which they end. */
  const STOPPER: string := "xxxxx\""

  lemma {:induction false} StringStops(data: string, j: nat)
    requires 0 < j <= |data|
    ensures ScanString(data + STOPPER, j) != Eof
    decreases |data| - j
  {
    var d := data + STOPPER;
    if j == |data| {
      assert d[j] == 'x' && d[j + 1] == 'x' && d[j + 2] == 'x' && d[j + 3] == 'x' && d[j + 4] == 'x' && d[j + 5] == '"';
      assert ScanString(d, j + 5) == Ok(j + 6);
      assert ScanString(d, j + 3) == ScanString(d, j + 4) == ScanString(d, j + 5);
      assert ScanString(d, j + 1) == ScanString(d, j + 2) == ScanString(d, j + 3);
    } else {
      StringStops(data, j + 1);
    }
  }

  lemma {:induction false} NumberStops(data: string, i: nat, f: bool, e: bool)
    requires i <= |data|
    ensures ScanNumber(data + STOPPER, i, f, e) != Eof && ScanDigits(data + STOPPER, i, f, e) != Eof
    decreases |data| - i
  {
    var d := data + STOPPER;
    assert d[|data|] == 'x';
    if i < |data| {
      assert d[i] == data[i];
      NumberStops(data, i + 1, f, e);
      NumberStops(data, i + 1, true, e);
      NumberStops(data, i + 1, true, true);
      if i + 1 < |data| {
        NumberStops(data, i + 2, true, true);
      }
    }
  }

  lemma ValueStops(data: string, st: St)
    requires st.i <= |data| && st.err == NoErr
    ensures ReadValue(data + STOPPER, st).0.err != UnexpectedEOF
    ensures ReadString(data + STOPPER, st).0.err != UnexpectedEOF
  {
    var d := data + STOPPER;
    if st.i < |data| {
      StringStops(data, st.i + 1);
      NumberStops(data, if d[st.i] == '-' then st.i + 1 else st.i, false, false);
      hide ScanString, ScanNumber;
    } else {
      assert d[st.i] == 'x';
    }
  }

  lemma DispatchStops(data: string, st: St)
    requires st.i <= |data| && st.err == NoErr
    ensures Dispatch(data + STOPPER, st).0.err != UnexpectedEOF
  {
    var d := data + STOPPER;
    hide ReadValue, ReadString;
    ValueStops(data, st);
    ValueStops(data, st.(cur := 2));
    ValueStops(data, st.(cur := 4));
    if st.i < |data| {
      SkipMore(data, STOPPER, st.i + 1);
      var a := st.(i := SkipWs(d, st.i + 1));
      assert a.i <= |data|;
      ValueStops(data, a);
      ValueStops(data, a.(cur := 4));
      ValueStops(data, a.(cur := 5));
    } else {
      assert d[st.i] == 'x';
    }
  }

  /** An unexpected end of the input is one: with more of it the call comes to another answer. */
  lemma EofMayGoOn(data: string, st: St)
    requires st.i <= |data| && st.err == NoErr
    ensures Next(data + STOPPER, st).0.err != UnexpectedEOF
  {
    SkipMore(data, STOPPER, st.i);
    var j := SkipWs(data + STOPPER, st.i);
    hide Dispatch, SkipWs;
    DispatchStops(data, st.(i := j));
  }
}
