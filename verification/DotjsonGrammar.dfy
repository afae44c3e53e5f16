/** What the decoder accepts and builds, as functions of the text and a position in it. */
module DotjsonGrammar {
  import opened Collections
  import opened DotjsonTable
  import opened DotjsonNode

  /** The text is NUL-terminated: reading at its end gives NUL. */
  function At(s: Bytes, p: nat): Byte {
    if p < |s| then s[p] else '\0'
  }

  predicate Space(c: Byte) { c == ' ' || c == '\t' || c == '\n' || c == '\r' }

  predicate Digit(c: Byte) { '0' <= c <= '9' }

  function Skip(s: Bytes, p: nat): (r: nat)
    ensures p <= r && (p <= |s| ==> r <= |s|) && !Space(At(s, r))
    decreases |s| - p
  {
    if Space(At(s, p)) then Skip(s, p + 1) else p
  }

  // ---- strings ----------------------------------------------------------------------------------

  datatype Dec<+T> = Fail | Ok(p: nat, v: T)

  function Hex(c: Byte): Option<nat> {
    if Digit(c) then Some(c as int - '0' as int)
    else if 'A' <= c <= 'F' then Some(c as int - 'A' as int + 10)
    else if 'a' <= c <= 'f' then Some(c as int - 'a' as int + 10)
    else None
  }

  /** The number spelled by n hex digits from p on, after u. */
  function HexRun(s: Bytes, p: nat, n: nat, u: nat): Option<nat>
    decreases n
  {
    if n == 0 then Some(u)
    else match Hex(At(s, p)) case None => None case Some(d) => HexRun(s, p + 1, n - 1, 16 * u + d)
  }

  /** One to three bytes; four hex digits spell no more. */
  function Utf8(u: nat): Bytes {
    if u <= 0x7f then [u as char]
    else if u <= 0x7ff then [(0xc0 + u / 64) as char, (0x80 + u % 64) as char]
    else if u <= 0xffff then [(0xe0 + u / 4096) as char, (0x80 + u / 64 % 64) as char, (0x80 + u % 64) as char]
    else []
  }

  /** The character an escape letter stands for. */
  function Unescaped(x: Byte): Option<Byte> {
    if x == '\"' then Some('\"') else if x == '\\' then Some('\\') else if x == '/' then Some('/')
    else if x == 'b' then Some(8 as char) else if x == 'f' then Some(12 as char) else if x == 'n' then Some('\n')
    else if x == 'r' then Some('\r') else if x == 't' then Some('\t') else None
  }

  /** What one character or escape at p stands for, and where the next one starts. */
  function Piece(s: Bytes, p: nat): (r: Dec<Bytes>)
    requires p < |s|
    ensures r.Ok? ==> p < r.p <= |s|
  {
    if s[p] != '\\' then Ok(p + 1, [s[p]])
    else if At(s, p + 1) == 'u' then
      match HexRun(s, p + 2, 4, 0)
      case None => Fail
      case Some(u) => if p + 6 <= |s| then Ok(p + 6, Utf8(u)) else Fail
    else
      match Unescaped(At(s, p + 1))
      case None => Fail
      case Some(c) => Ok(p + 2, [c])
  }

  /** From inside a string to behind its closing quote. */
  function Unescape(s: Bytes, p: nat, acc: Bytes): (r: Dec<Bytes>)
    ensures r.Ok? ==> p < r.p <= |s|
    decreases |s| - p
  {
    if At(s, p) == '\"' then Ok(p + 1, acc)
    else if At(s, p) == '\0' then Fail
    else match Piece(s, p) case Fail => Fail case Ok(q, t) => Unescape(s, q, acc + t)
  }

  function ReadString(s: Bytes, p: nat): (r: Dec<Bytes>)
    ensures r.Ok? ==> p < r.p <= |s|
  {
    if At(s, p) == '\"' then Unescape(s, p + 1, []) else Fail
  }

  // ---- numbers ----------------------------------------------------------------------------------

  function Sign(s: Bytes, p: nat): (r: nat)
    ensures p <= r && (p <= |s| ==> r <= |s|)
  {
    if At(s, p) == '+' || At(s, p) == '-' then p + 1 else p
  }

  function Digits(s: Bytes, p: nat): (r: nat)
    ensures p <= r && (p <= |s| ==> r <= |s|)
    decreases |s| - p
  {
    if Digit(At(s, p)) then Digits(s, p + 1) else p
  }

  /** An exponent, if there is one. */
  function ExpEnd(s: Bytes, p: nat): (r: Option<nat>)
    ensures r.Some? && p <= |s| ==> p <= r.value <= |s|
  {
    if At(s, p) == 'e' || At(s, p) == 'E' then
      var q := Sign(s, p + 1);
      if Digits(s, q) == q then None else Some(Digits(s, q))
    else Some(p)
  }

  /** Sign, digits, optional fraction, optional exponent. */
  function NumEnd(s: Bytes, p: nat): (r: Option<nat>)
    ensures r.Some? && p <= |s| ==> p < r.value <= |s|
  {
    var a := Sign(s, p);
    var b := Digits(s, a);
    if b == a then None
    else if At(s, b) == '.' then
      var c := Digits(s, b + 1);
      if c == b + 1 then None else ExpEnd(s, c)
    else ExpEnd(s, b)
  }

  // ---- documents --------------------------------------------------------------------------------

  predicate Spells(s: Bytes, p: nat, w: Bytes) {
    p + |w| <= |s| && s[p..p + |w|] == w
  }

  function Word(s: Bytes, p: nat, w: Bytes, n: Node): (r: Dec<Node>)
    requires w != []
    ensures r.Ok? ==> p < r.p <= |s|
  {
    if Spells(s, p, w) then Ok(p + |w|, n) else Fail
  }

  function DecodeNode(s: Bytes, start: nat): (r: Dec<Node>)
    ensures r.Ok? ==> start < r.p <= |s|
    decreases |s| - start, 2
  {
    var p := Skip(s, start);
    var c := At(s, p);
    if c == '{' then DecodeFields(s, p + 1, [])
    else if c == '[' then DecodeItems(s, p + 1, [])
    else if c == '\"' then
      match ReadString(s, p) case Fail => Fail case Ok(q, t) => Ok(q, Str(t))
    else if c == 'n' then Word(s, p, NULL_TEXT, Null)
    else if c == 'f' then Word(s, p, FALSE_TEXT, False)
    else if c == 't' then Word(s, p, TRUE_TEXT, True)
    else if Digit(c) || c == '+' || c == '-' then
      match NumEnd(s, p) case None => Fail case Some(q) => Ok(q, Num(s[p..q]))
    else Fail
  }

  /** The rest of an array: a closing bracket right after the opening one, or an item and what follows it. */
  function DecodeItems(s: Bytes, start: nat, items: seq<Node>): (r: Dec<Node>)
    ensures r.Ok? ==> start < r.p <= |s|
    decreases |s| - start, 3
  {
    var p := Skip(s, start);
    if At(s, p) == ']' then (if items == [] then Ok(p + 1, Arr([])) else Fail)
    else
      match DecodeNode(s, p)
      case Fail => Fail
      case Ok(q, n) =>
        var e := Skip(s, q);
        if At(s, e) == ',' then DecodeItems(s, e + 1, items + [n])
        else if At(s, e) == ']' then Ok(e + 1, Arr(items + [n]))
        else Fail
  }

  /** The rest of an object; no object has been made while the table is empty. */
  function DecodeFields(s: Bytes, start: nat, t: Table<Node>): (r: Dec<Node>)
    ensures r.Ok? ==> start < r.p <= |s|
    decreases |s| - start, 3
  {
    var p := Skip(s, start);
    if At(s, p) == '}' then (if t == [] then Ok(p + 1, Obj(Blank(1))) else Fail)
    else
      match ReadString(s, p)
      case Fail => Fail
      case Ok(q, key) =>
        var c := Skip(s, q);
        if At(s, c) != ':' then Fail
        else
          match DecodeNode(s, Skip(s, c + 1))
          case Fail => Fail
          case Ok(v, val) =>
            var e := Skip(s, v);
            var u := Add(t, Entry(Hash(key), key, val));
            if At(s, e) == ',' then DecodeFields(s, e + 1, u)
            else if At(s, e) == '}' then Ok(e + 1, Obj(u))
            else Fail
  }

  /** An object behind optional spaces; dotjson_decode accepts nothing else as a document. */
  function DecodeObjectText(s: Bytes, start: nat): (r: Dec<Node>)
    ensures r.Ok? ==> start < r.p <= |s|
  {
    var p := Skip(s, start);
    if At(s, p) == '{' then DecodeFields(s, p + 1, []) else Fail
  }
}
