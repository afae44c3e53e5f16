/** What the strict JSON tokenizer does with its input, one token at a time. */
module JsonTokens {
  import opened Collections

  datatype Kind = Invalid | Null | False | True | Number | String | Object | Array | CloseObject | CloseArray

  datatype Err = NoErr | UnexpectedEOF | Syntax(pos: nat)

  datatype Token = Token(kind: Kind, text: string)

  /** Position, parser state, saved parser states, error. */
  datatype St = St(i: nat, cur: nat, top: seq<nat>, err: Err)

  const NONE: Token := Token(Invalid, [])

  predicate IsWhitespace(c: char) {
    c == ' ' || c == '\n' || c == '\r' || c == '\t'
  }

  predicate IsDigit(c: char) {
    '0' <= c <= '9'
  }

  // ---- scanning ---------------------------------------------------------------------------------

  function SkipWs(data: string, i: nat): (r: nat)
    requires i <= |data|
    ensures i <= r <= |data| && (r < |data| ==> !IsWhitespace(data[r]))
    ensures forall k :: i <= k < r ==> IsWhitespace(data[k])
    decreases |data| - i
  {
    if i < |data| && IsWhitespace(data[i]) then SkipWs(data, i + 1) else i
  }

  datatype Scan = Ok(end: nat) | Eof | Bad

  /** A string ends at the first quote that does not follow a backslash byte. */
  function ScanString(data: string, j: nat): (r: Scan)
    requires 0 < j <= |data|
    ensures r.Ok? ==> j < r.end <= |data|
    decreases |data| - j
  {
    if j == |data| then Eof
    else if data[j] == '"' && data[j - 1] != '\\' then Ok(j + 1)
    else ScanString(data, j + 1)
  }

  /** A digit is due. */
  function ScanNumber(data: string, i: nat, isfrac: bool, isexp: bool): (r: Scan)
    requires i <= |data|
    ensures r.Ok? ==> i < r.end <= |data|
    decreases |data| - i, 0
  {
    if i == |data| then Eof
    else if !IsDigit(data[i]) then Bad
    else ScanDigits(data, i + 1, isfrac, isexp)
  }

  /** At least one digit has been read. */
  function ScanDigits(data: string, i: nat, isfrac: bool, isexp: bool): (r: Scan)
    requires i <= |data|
    ensures r.Ok? ==> i <= r.end <= |data|
    decreases |data| - i, 1
  {
    if i == |data| then Ok(i)
    else if IsDigit(data[i]) then ScanDigits(data, i + 1, isfrac, isexp)
    else if !isfrac && data[i] == '.' then ScanNumber(data, i + 1, true, isexp)
    else if !isexp && (data[i] == 'e' || data[i] == 'E') then
      ScanNumber(data, if i + 1 < |data| && data[i + 1] == '-' then i + 2 else i + 1, true, true)
    else Ok(i)
  }

  function ScanWord(data: string, i: nat, word: string): (r: Scan)
    requires i <= |data|
    ensures r.Ok? ==> r.end <= |data|
  {
    if i + |word| > |data| then Eof
    else if data[i..i + |word|] == word then Ok(i + |word|)
    else Bad
  }

  // ---- one token --------------------------------------------------------------------------------

  function Fail(st: St): (St, Token) {
    (st.(err := Syntax(st.i)), NONE)
  }

  function AtEof(st: St): (St, Token) {
    (st.(err := UnexpectedEOF), NONE)
  }

  function Emit(data: string, st: St, kind: Kind, r: Scan): (St, Token)
    requires r.Ok? ==> st.i <= r.end <= |data|
  {
    match r
    case Ok(end) => (st.(i := end), Token(kind, data[st.i..end]))
    case Eof => AtEof(st)
    case Bad => Fail(st)
  }

  function ReadString(data: string, st: St): (St, Token)
    requires st.i < |data|
  {
    if data[st.i] != '"' then Fail(st) else Emit(data, st, String, ScanString(data, st.i + 1))
  }

  function ReadNumber(data: string, st: St): (St, Token)
    requires st.i < |data|
  {
    Emit(data, st, Number, ScanNumber(data, if data[st.i] == '-' then st.i + 1 else st.i, false, false))
  }

  function Open(data: string, st: St, kind: Kind, cur: nat): (St, Token)
    requires st.i < |data|
  {
    (St(st.i + 1, cur, if st.cur != 0 then st.top + [st.cur] else st.top, st.err), Token(kind, data[st.i..st.i + 1]))
  }

  function ReadValue(data: string, st: St): (St, Token)
    requires st.i < |data|
  {
    var c := data[st.i];
    if c == 'n' then Emit(data, st, Null, ScanWord(data, st.i, "null"))
    else if c == 't' then Emit(data, st, True, ScanWord(data, st.i, "true"))
    else if c == 'f' then Emit(data, st, False, ScanWord(data, st.i, "false"))
    else if c == '"' then ReadString(data, st)
    else if c == '{' then Open(data, st, Object, 3)
    else if c == '[' then Open(data, st, Array, 1)
    else if IsDigit(c) || c == '-' then ReadNumber(data, st)
    else Fail(st)
  }

  function Close(data: string, st: St, kind: Kind): (St, Token)
    requires st.i < |data|
  {
    (if |st.top| > 0 then St(st.i + 1, st.top[|st.top| - 1], st.top[..|st.top| - 1], st.err)
      else St(st.i + 1, 0, [], st.err),
     Token(kind, data[st.i..st.i + 1]))
  }

  /** Steps over a separator and the whitespace after it; None at the end of the input. */
  function After(data: string, st: St): Option<St>
    requires st.i < |data|
  {
    var j := SkipWs(data, st.i + 1);
    if j == |data| then None else Some(st.(i := j))
  }

  /** The machine at a byte that is not whitespace. */
  function Dispatch(data: string, st: St): (St, Token)
    requires st.i < |data|
  {
    var c := data[st.i];
    if st.cur == 1 then
      if c == ']' then Close(data, st, CloseArray) else ReadValue(data, st.(cur := 2))
    else if st.cur == 2 then
      if c == ',' then
        match After(data, st)
        case None => AtEof(st.(i := |data|))
        case Some(s) => ReadValue(data, s)
      else if c == ']' then Close(data, st, CloseArray)
      else Fail(st)
    else if st.cur == 3 then
      if c == '}' then Close(data, st, CloseObject) else ReadString(data, st.(cur := 4))
    else if st.cur == 4 then
      if c == ':' then
        match After(data, st)
        case None => AtEof(st.(i := |data|))
        case Some(s) => ReadValue(data, s.(cur := 5))
      else Fail(st)
    else if st.cur == 5 then
      if c == ',' then
        match After(data, st)
        case None => AtEof(st.(i := |data|))
        case Some(s) => ReadString(data, s.(cur := 4))
      else if c == '}' then Close(data, st, CloseObject)
      else Fail(st)
    else ReadValue(data, st)
  }

  function Next(data: string, st: St): (St, Token)
    requires st.i <= |data|
  {
    if st.err != NoErr then (st, NONE)
    else
      var j := SkipWs(data, st.i);
      if j == |data| then (st.(i := j, err := if st.cur == 0 then NoErr else UnexpectedEOF), NONE)
      else Dispatch(data, st.(i := j))
  }
}
