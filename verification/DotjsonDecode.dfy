/** The decoder's loops, each proved to compute its grammar function. */
module DotjsonDecode {
  import opened Collections
  import opened DotjsonBits
  import opened DotjsonTable
  import opened DotjsonObject
  import opened DotjsonNode
  import opened DotjsonGrammar

  method IgnoreSpace(s: Bytes, start: nat) returns (p: nat)
    ensures p == Skip(s, start)
  {
    p := start;
    while Space(At(s, p))
      invariant Skip(s, p) == Skip(s, start)
      decreases |s| - p
    {
      p := p + 1;
    }
  }

  /** Four hex digits after the u, or nothing. */
  method ReadHex(s: Bytes, p: nat) returns (u: Option<nat>)
    ensures u == HexRun(s, p, 4, 0)
  {
    hide HexRun, At, Digit;
    var uc: nat := 0;
    var i := 0;
    while i < 4
      invariant 0 <= i <= 4 && HexRun(s, p + i, 4 - i, uc) == HexRun(s, p, 4, 0)
    {
      HexStep(s, p + i, 4 - i, uc);
      var c := At(s, p + i);
      if Digit(c) {
        uc := 16 * uc + c as int % 16;
      } else if 'A' <= c <= 'F' || 'a' <= c <= 'f' {
        uc := 16 * uc + (c as int % 16 + 9);
      } else {
        return None;
      }
      i := i + 1;
    }
    HexDone(s, p + 4, uc);
    u := Some(uc);
  }

  lemma HexDone(s: Bytes, p: nat, u: nat)
    ensures HexRun(s, p, 0, u) == Some(u)
  {
  }

  /** The low four bits of a digit are its value, those of a letter lack nine. */
  lemma HexStep(s: Bytes, p: nat, n: nat, u: nat)
    requires n > 0
    ensures var c := At(s, p);
      HexRun(s, p, n, u) ==
        if Digit(c) then HexRun(s, p + 1, n - 1, 16 * u + c as int % 16)
        else if 'A' <= c <= 'F' || 'a' <= c <= 'f' then HexRun(s, p + 1, n - 1, 16 * u + (c as int % 16 + 9))
        else None
  {
    HexValue(At(s, p));
    hide Digit, At;
  }

  lemma HexValue(c: Byte)
    ensures Hex(c) == if Digit(c) then Some(c as int % 16)
      else if 'A' <= c <= 'F' || 'a' <= c <= 'f' then Some(c as int % 16 + 9) else None
  {
  }

  lemma {:induction false} HexInText(s: Bytes, p: nat, n: nat, u: nat)
    requires HexRun(s, p, n, u).Some?
    ensures n > 0 ==> p + n <= |s|
    decreases n
  {
    if n > 0 { HexInText(s, p + 1, n - 1, 16 * u + Hex(At(s, p)).value); }
  }

  /** Bytes go to the buffer where they fit whole; the length counts them all. */
  ghost predicate Filled(b: Bytes, l: nat, acc: Bytes) {
    |acc| <= l <= |b| ==> b[..|acc|] == acc
  }

  method Store(buf: array<Byte>, l: nat, n: nat, t: Bytes, ghost acc: Bytes)
    requires l <= buf.Length && n == |acc| && Filled(buf[..], l, acc)
    modifies buf
    ensures Filled(buf[..], l, acc + t)
  {
    if n + |t| <= l {
      forall i | 0 <= i < |t| { buf[n + i] := t[i]; }
      assert buf[..n + |t|] == acc + t;
    }
  }

  /**
   * unescape_str: how many bytes of text a string takes and how many it stands for. With a buffer of
   * length 0 it only measures.
   */
  method UnescapeStr(s: Bytes, start: nat, buf: array<Byte>, l: nat) returns (used: nat, n: nat)
    requires l <= buf.Length
    modifies buf
    ensures ReadString(s, start).Fail? ==> used == 0
    ensures ReadString(s, start).Ok? ==> used == ReadString(s, start).p - start && n == |ReadString(s, start).v|
    ensures ReadString(s, start).Ok? ==> Filled(buf[..], l, ReadString(s, start).v)
  {
    used, n := 0, 0;
    if At(s, start) != '\"' { return; }
    var p := start + 1;
    ghost var acc: Bytes := [];
    while At(s, p) != '\"'
      invariant start < p <= |s| && n == |acc| && Filled(buf[..], l, acc)
      invariant Unescape(s, p, acc) == Unescape(s, start + 1, [])
      decreases |s| - p
    {
      if At(s, p) == '\0' { return; }
      var q, t := OnePiece(s, p);
      if q == 0 { return; }
      Store(buf, l, n, t, acc);
      n := n + |t|;
      acc := acc + t;
      p := q;
    }
    used := p + 1 - start;
  }

  /** One character or escape; 0 for a malformed escape. */
  method OnePiece(s: Bytes, p: nat) returns (q: nat, t: Bytes)
    requires p < |s|
    ensures Piece(s, p) == if q == 0 then Fail else Ok(q, t)
  {
    q, t := 0, [];
    if s[p] == '\\' {
      if At(s, p + 1) == 'u' {
        var u := ReadHex(s, p + 2);
        if u.None? { return; }
        HexInText(s, p + 2, 4, 0);
        return p + 6, Utf8(u.value);
      }
      var c := Unescaped(At(s, p + 1));
      if c.None? { return; }
      return p + 2, [c.value];
    }
    return p + 1, [s[p]];
  }

  /** Measure, allocate, fill. */
  method TakeString(s: Bytes, p: nat) returns (used: nat, t: Bytes)
    ensures ReadString(s, p) == if used == 0 then Fail else Ok(p + used, t)
  {
    var none := new Byte[0];
    var len;
    used, len := UnescapeStr(s, p, none, 0);
    t := [];
    if used == 0 { return; }
    var buf := new Byte[len + 1];
    used, len := UnescapeStr(s, p, buf, len);
    t := buf[..len];
  }

  /** At the start, behind the point, or behind the exponent mark. */
  ghost predicate NumberSoFar(s: Bytes, start: nat, p: nat, state: nat, sign: bool) {
    var a := Sign(s, start);
    var b := Digits(s, a);
    || (state == 0 && sign && p == start)
    || (state == 2 && !sign && b > a && p == b + 1 && At(s, b) == '.')
    || (state == 4 && sign && p > 0 && NumEnd(s, start) == ExpEnd(s, p - 1) &&
      (At(s, p - 1) == 'e' || At(s, p - 1) == 'E'))
  }

  /** The scan with its state: digits seen, a point, a fraction, an exponent mark, an exponent. */
  method ScanNumber(s: Bytes, start: nat) returns (end: Option<nat>)
    requires start <= |s|
    ensures end == NumEnd(s, start)
  {
    var p := start;
    var state := 0;
    var sign := true;
    while true
      invariant start <= p <= |s|
      invariant NumberSoFar(s, start, p, state, sign)
      decreases |s| - p, 5 - state
    {
      if sign && (At(s, p) == '+' || At(s, p) == '-') { p := p + 1; }
      var q := TakeDigits(s, p);
      if q > p { state := state + 1; }
      p := q;
      if state == 1 && At(s, p) == '.' {
        state, sign, p := 2, false, p + 1;
      } else if (state == 1 || state == 3) && (At(s, p) == 'E' || At(s, p) == 'e') {
        state, sign, p := 4, true, p + 1;
      } else {
        break;
      }
    }
    if state % 2 == 0 { return None; }
    return Some(p);
  }

  method TakeDigits(s: Bytes, start: nat) returns (p: nat)
    ensures p == Digits(s, start)
  {
    p := start;
    while Digit(At(s, p))
      invariant p >= start && Digits(s, p) == Digits(s, start)
      decreases |s| - p
    {
      p := p + 1;
    }
  }

  /** A result in the program's terms: bytes taken and the node made, or none and a count of spaces at most. */
  predicate Gives(r: Dec<Node>, start: nat, n: nat, node: Option<Node>) {
    match r
    case Fail => node == None
    case Ok(p, v) => node == Some(v) && n == p - start
  }

  method DecodeString(s: Bytes, p: nat) returns (n: nat, node: Option<Node>)
    ensures match ReadString(s, p)
      case Fail => n == 0 && node == None
      case Ok(q, t) => n == q - p && node == Some(Str(t))
  {
    var t;
    n, t := TakeString(s, p);
    node := if n == 0 then None else Some(Str(t));
  }

  method DecodeNumber(s: Bytes, p: nat) returns (n: nat, node: Option<Node>)
    requires p <= |s|
    ensures match NumEnd(s, p)
      case None => n == 0 && node == None
      case Some(q) => n == q - p && node == Some(Num(s[p..q]))
  {
    var end := ScanNumber(s, p);
    if end.None? { return 0, None; }
    return end.value - p, Some(Num(s[p..end.value]));
  }

  /** decode_node: 0 bytes taken, when it starts at no space, means failure. */
  method DecodeNodeAt(s: Bytes, start: nat) returns (n: nat, node: Option<Node>)
    requires Colons(s, |s|) < Pow2(32) && start <= |s|
    ensures Gives(DecodeNode(s, start), start, n, node)
    ensures node.None? ==> n == Skip(s, start) - start
    decreases |s| - start, 3
  {
    hide Colons, Pow2;
    var p := IgnoreSpace(s, start);
    var m := 0;
    node := None;
    var c := At(s, p);
    if c == '{' {
      m, node := DecodeObject(s, p);
    } else if c == '[' {
      m, node := DecodeArray(s, p);
    } else if c == '\"' {
      m, node := DecodeString(s, p);
    } else if c == 'n' {
      if Spells(s, p, NULL_TEXT) { m, node := 4, Some(Null); }
    } else if c == 'f' {
      if Spells(s, p, FALSE_TEXT) { m, node := 5, Some(False); }
    } else if c == 't' {
      if Spells(s, p, TRUE_TEXT) { m, node := 4, Some(True); }
    } else if Digit(c) || c == '+' || c == '-' {
      m, node := DecodeNumber(s, p);
    }
    n := p + m - start;
  }

  /**
   * decode_array: state 0 before the bracket, 1 before an item, 2 behind an item, 3 done. The array is
   * made with its first item, so an item must follow every comma.
   */
  method DecodeArray(s: Bytes, start: nat) returns (n: nat, node: Option<Node>)
    requires Colons(s, |s|) < Pow2(32) && start < |s| && s[start] == '['
    ensures match DecodeItems(s, start + 1, [])
      case Fail => n == 0 && node == None
      case Ok(q, v) => n == q - start && node == Some(v)
    decreases |s| - start, 2
  {
    hide DecodeNode, DecodeItems, AfterItem, Colons, Pow2;
    ghost var goal := DecodeItems(s, start + 1, []);
    var p, state := start, 0;
    var items: seq<Node>, made := [], false;
    var item: Option<Node> := None;
    while At(s, p) != '\0' && state != 3
      invariant start <= p <= |s|
      invariant state == 0 ==> p == start && items == [] && !made
      invariant state == 1 ==> p > start && goal == DecodeItems(s, p, items) && made == (items != [])
      invariant state == 2 ==>
        p > start && item.Some? && goal == AfterItem(s, p, items, item.value) && made == (items != [])
      invariant state == 3 ==> goal == Ok(p, Arr(items))
      invariant state <= 3
      decreases state != 3, |s| - p
    {
      ItemsUnfold(s, p, items);
      if state == 2 { AfterUnfold(s, p, items, item.value); }
      p := IgnoreSpace(s, p);
      if state == 0 && At(s, p) == '[' {
        state := 1;
      } else if state == 1 {
        if At(s, p) == ']' {
          if made { break; }
          made, state := true, 3;
        } else {
          var m;
          m, item := DecodeNodeAt(s, p);
          if m == 0 { break; }
          p := p + m - 1;
          state := 2;
        }
      } else if state == 2 && (At(s, p) == ',' || At(s, p) == ']') {
        made, items, item := true, items + [item.value], None;
        state := if At(s, p) == ',' then 1 else 3;
      } else {
        break;
      }
      p := p + 1;
    }
    if state != 3 {
      ItemsUnfold(s, p, items);
      if state == 2 && item.Some? { AfterUnfold(s, p, items, item.value); }
      if At(s, p) == '\0' { NothingAtEnd(s, p); }
      return 0, None;
    }
    return p - start, Some(Arr(items));
  }

  /** What the grammar says behind an item. */
  function AfterItem(s: Bytes, p: nat, items: seq<Node>, n: Node): Dec<Node> {
    var e := Skip(s, p);
    if At(s, e) == ',' then DecodeItems(s, e + 1, items + [n])
    else if At(s, e) == ']' then Ok(e + 1, Arr(items + [n]))
    else Fail
  }

  lemma ItemsUnfold(s: Bytes, p: nat, items: seq<Node>)
    ensures DecodeItems(s, p, items) ==
      var q := Skip(s, p);
      if At(s, q) == ']' then (if items == [] then Ok(q + 1, Arr([])) else Fail)
      else match DecodeNode(s, q) case Fail => Fail case Ok(v, n) => AfterItem(s, v, items, n)
  {
    hide DecodeNode;
  }

  lemma AfterUnfold(s: Bytes, p: nat, items: seq<Node>, n: Node)
    ensures AfterItem(s, p, items, n) ==
      var e := Skip(s, p);
      if At(s, e) == ',' then DecodeItems(s, e + 1, items + [n])
        else if At(s, e) == ']' then Ok(e + 1, Arr(items + [n])) else Fail
  {
    hide DecodeItems;
  }

  lemma NothingAtEnd(s: Bytes, p: nat)
    requires At(s, p) == '\0'
    ensures Skip(s, p) == p && DecodeNode(s, p).Fail?
  {
  }

  /** What the grammar says behind a key, behind its colon, and behind the value. */
  function AfterKey(s: Bytes, p: nat, t: Table<Node>, key: Bytes): Dec<Node> {
    var c := Skip(s, p);
    if At(s, c) != ':' then Fail else AfterColon(s, c + 1, t, key)
  }

  function AfterColon(s: Bytes, p: nat, t: Table<Node>, key: Bytes): Dec<Node> {
    match DecodeNode(s, Skip(s, p))
    case Fail => Fail
    case Ok(v, val) => AfterValue(s, v, t, key, val)
  }

  function AfterValue(s: Bytes, p: nat, t: Table<Node>, key: Bytes, val: Node): Dec<Node> {
    var e := Skip(s, p);
    var u := Add(t, Entry(Hash(key), key, val));
    if At(s, e) == ',' then DecodeFields(s, e + 1, u)
    else if At(s, e) == '}' then Ok(e + 1, Obj(u))
    else Fail
  }

  lemma FieldsUnfold(s: Bytes, p: nat, t: Table<Node>)
    ensures DecodeFields(s, p, t) ==
      var q := Skip(s, p);
      if At(s, q) == '}' then (if t == [] then Ok(q + 1, Obj(Blank(1))) else Fail)
      else match ReadString(s, q) case Fail => Fail case Ok(k, key) => AfterKey(s, k, t, key)
  {
    hide DecodeNode, ReadString, Add, Hash;
  }

  /** Where the loop of decode_object is: what is left to do gives the goal. */
  ghost predicate ObjectSoFar(goal: Dec<Node>, s: Bytes, start: nat, p: nat, state: nat, t: Table<Node>, key: Bytes,
      val: Option<Node>) {
    match state
    case 0 => goal == DecodeObjectText(s, p) && t == []
    case 1 => p > start && goal == DecodeFields(s, p, t)
    case 2 => p > start && goal == AfterKey(s, p, t, key)
    case 3 => p > start && goal == AfterColon(s, p, t, key)
    case 4 => p > start && val.Some? && goal == AfterValue(s, p, t, key, val.value)
    case 5 => goal == Ok(p, Obj(t))
    case _ => false
  }

  lemma BraceStep(goal: Dec<Node>, s: Bytes, start: nat, p: nat, t: Table<Node>, key: Bytes, val: Option<Node>)
    requires ObjectSoFar(goal, s, start, p, 0, t, key, val) && p >= start
    ensures var q := Skip(s, p);
      if At(s, q) == '{' then ObjectSoFar(goal, s, start, q + 1, 1, t, key, val) else goal.Fail?
  {
    hide DecodeFields;
  }

  lemma KeyStep(goal: Dec<Node>, s: Bytes, start: nat, p: nat, t: Table<Node>, key: Bytes, val: Option<Node>)
    requires ObjectSoFar(goal, s, start, p, 1, t, key, val)
    ensures var q := Skip(s, p);
      if At(s, q) == '}' then (if t == [] then goal == Ok(q + 1, Obj(Blank(1))) else goal.Fail?)
      else match ReadString(s, q)
        case Fail => goal.Fail?
        case Ok(k, key) => k > 0 && ObjectSoFar(goal, s, start, k, 2, t, key, None)
  {
    hide DecodeFields, ReadString, AfterKey;
    FieldsUnfold(s, p, t);
  }

  lemma ColonStep(goal: Dec<Node>, s: Bytes, start: nat, p: nat, t: Table<Node>, key: Bytes, val: Option<Node>)
    requires ObjectSoFar(goal, s, start, p, 2, t, key, val)
    ensures var q := Skip(s, p);
      if At(s, q) == ':' then ObjectSoFar(goal, s, start, q + 1, 3, t, key, val) else goal.Fail?
  {
    hide AfterColon;
  }

  lemma ValueStep(goal: Dec<Node>, s: Bytes, start: nat, p: nat, t: Table<Node>, key: Bytes, val: Option<Node>)
    requires ObjectSoFar(goal, s, start, p, 3, t, key, val)
    ensures match DecodeNode(s, Skip(s, p))
      case Fail => goal.Fail?
      case Ok(v, x) => ObjectSoFar(goal, s, start, v, 4, t, key, Some(x))
  {
    hide AfterValue, DecodeNode;
  }

  lemma EntryStep(goal: Dec<Node>, s: Bytes, start: nat, p: nat, t: Table<Node>, key: Bytes, val: Option<Node>)
    requires ObjectSoFar(goal, s, start, p, 4, t, key, val)
    ensures val.Some?
    ensures var q, u := Skip(s, p), Add(t, Entry(Hash(key), key, val.value));
      if At(s, q) == ',' then ObjectSoFar(goal, s, start, q + 1, 1, u, key, None)
      else if At(s, q) == '}' then ObjectSoFar(goal, s, start, q + 1, 5, u, key, None)
      else goal.Fail?
  {
    hide DecodeFields, Add, Hash;
  }

  lemma DoneStep(goal: Dec<Node>, s: Bytes, start: nat, p: nat, t: Table<Node>, key: Bytes, val: Option<Node>)
    ensures ObjectSoFar(goal, s, start, p, 5, t, key, val) <==> goal == Ok(p, Obj(t))
  {
  }

  /** No branch fits what comes next: the text is not an object. */
  lemma Stuck(goal: Dec<Node>, s: Bytes, start: nat, p: nat, state: nat, t: Table<Node>, key: Bytes, val: Option<Node>)
    requires ObjectSoFar(goal, s, start, p, state, t, key, val) && state != 5
    requires var c := At(s, Skip(s, p));
      match state
      case 0 => c != '{'
      case 1 => c != '\"' && c != '}'
      case 2 => c != ':'
      case 4 => c != ',' && c != '}'
      case _ => c == '\0'
    ensures goal.Fail?
  {
    hide DecodeFields;
    match state
    case 1 => KeyStep(goal, s, start, p, t, key, val);
    case _ =>
  }

  /** The object under construction is valid and has at most m entries. */
  ghost predicate Building(made: Object?<Node>, m: nat)
    reads made, if made == null then {} else {made.entries}
  {
    made != null ==> made.Valid() && made.len <= m
  }

  /** The colons before p: every field needs one. */
  function Colons(s: Bytes, p: nat): nat
    requires p <= |s|
  {
    if p == 0 then 0 else Colons(s, p - 1) + if s[p - 1] == ':' then 1 else 0
  }

  lemma {:induction false} MoreColons(s: Bytes, p: nat, q: nat)
    requires p <= q <= |s|
    ensures Colons(s, p) <= Colons(s, q)
  {
    if p < q { MoreColons(s, p, q - 1); }
  }

  lemma OneColon(s: Bytes, p: nat, q: nat)
    requires p <= q < |s| && s[q] == ':'
    ensures Colons(s, p) < Colons(s, q + 1)
  {
    MoreColons(s, p, q);
  }

  /** The states and characters with which a field goes on; any character may start a value. */
  predicate FieldNext(state: nat, c: Byte) {
    (state == 0 && c == '{') || (state == 1 && c == '\"') || (state == 2 && c == ':') || state == 3
  }

  /** The iteration that reads a key, a colon or a value: no object is touched. */
  method FieldStep(s: Bytes, start: nat, p0: nat, state0: nat, key0: Bytes, val0: Option<Node>, ghost goal: Dec<Node>,
      ghost t: Table<Node>)
    returns (ok: bool, p: nat, state: nat, key: Bytes, val: Option<Node>)
    requires Colons(s, |s|) < Pow2(32) && start <= p0 <= |s| && ObjectSoFar(goal, s, start, p0, state0, t, key0, val0)
    requires FieldNext(state0, At(s, Skip(s, p0))) && (state0 == 3 ==> p0 > start)
    ensures !ok ==> goal.Fail?
    ensures ok ==> p0 < p <= |s| && state == state0 + 1 && ObjectSoFar(goal, s, start, p, state, t, key, val)
    ensures ok && state == 4 ==> val.Some?
    ensures ok ==> Colons(s, p) >= Colons(s, p0) + if state0 == 2 then 1 else 0
    decreases |s| - start, 0
  {
    hide DecodeFields, DecodeNode, AfterKey, AfterColon, AfterValue, ReadString, Add, Hash, ObjectSoFar, Colons, Pow2;
    ok, state, key, val := true, state0, key0, val0;
    p := IgnoreSpace(s, p0);
    var used := 1;
    if state == 0 {
      BraceStep(goal, s, start, p0, t, key, val);
    } else if state == 1 {
      KeyStep(goal, s, start, p0, t, key, val);
      used, key := TakeString(s, p);
      val := None;
    } else if state == 2 {
      ColonStep(goal, s, start, p0, t, key, val);
    } else {
      ValueStep(goal, s, start, p0, t, key, val);
      used, val := DecodeNodeAt(s, p);
    }
    if used == 0 { return false, p, state, key, val; }
    if state == 2 { OneColon(s, p0, p); }
    p := p + used;
    MoreColons(s, p0, p);
    state := state + 1;
  }

  /** The iteration behind a value: the entry goes into the object. */
  method EntryAdded(s: Bytes, start: nat, p0: nat, key: Bytes, val: Node, from: Object?<Node>, ghost m: nat,
      ghost goal: Dec<Node>)
    returns (p: nat, state: nat, made: Object<Node>)
    requires Colons(s, |s|) < Pow2(32) && p0 <= |s| && Building(from, m) && m < Colons(s, p0)
    requires ObjectSoFar(goal, s, start, p0, 4, TableOf(from), key, Some(val))
    requires var c := At(s, Skip(s, p0)); c == ',' || c == '}'
    modifies from, if from == null then {} else {from.entries}
    ensures p0 < p <= |s| && (state == 1 || state == 5) && Building(made, m + 1) && Colons(s, p0) <= Colons(s, p)
    ensures ObjectSoFar(goal, s, start, p, state, TableOf(made), key, None)
    ensures made == from || fresh(made)
    ensures fresh(made.entries) || (from != null && made.entries == old(from.entries))
  {
    hide DecodeFields, Add, Hash, ObjectSoFar, Sound, Occupied, Skip, TableOf, Object.Valid, At;
    p := IgnoreSpace(s, p0);
    EntryStep(goal, s, start, p0, TableOf(from), key, Some(val));
    AtInText(s, p);
    MoreColons(s, p0, |s|);
    made := Insert(from, Entry(Hash(key), key, val));
    state := if At(s, p) == ',' then 1 else 5;
    p := p + 1;
    MoreColons(s, p0, p);
  }

  method EmptyObject(s: Bytes, start: nat, p: nat, key: Bytes, ghost goal: Dec<Node>) returns (made: Object<Node>)
    requires goal == Ok(p, Obj(Blank(1)))
    ensures Building(made, 0) && fresh(made) && fresh(made.entries)
    ensures ObjectSoFar(goal, s, start, p, 5, TableOf(made), key, None)
  {
    made := GrowNone();
  }

  /** A brace where a key is due ends the text only if no entry was read. */
  lemma EmptyStep(goal: Dec<Node>, s: Bytes, start: nat, p: nat, made: Object?<Node>, m: nat, key: Bytes,
      val: Option<Node>)
    requires ObjectSoFar(goal, s, start, p, 1, TableOf(made), key, val) && At(s, Skip(s, p)) == '}' && Building(made, m)
    ensures if made == null then goal == Ok(Skip(s, p) + 1, Obj(Blank(1))) else goal.Fail?
  {
    KeyStep(goal, s, start, p, TableOf(made), key, val);
    hide ObjectSoFar;
  }

  /** What holds between two turns of the loop. */
  ghost predicate Decoding(goal: Dec<Node>, s: Bytes, start: nat, p: nat, state: nat, key: Bytes, val: Option<Node>,
      made: Object?<Node>, m: nat)
    reads made, if made == null then {} else {made.entries}
  {
    && start <= p <= |s| && state <= 5
    && Building(made, m) && m + (if state == 3 || state == 4 then 1 else 0) <= Colons(s, p)
    && (state == 4 ==> val.Some?) && (state == 3 ==> p > start) && (state == 5 ==> made != null)
    && ObjectSoFar(goal, s, start, p, state, TableOf(made), key, val)
  }

  lemma DecodingStarts(goal: Dec<Node>, s: Bytes, start: nat, key: Bytes, val: Option<Node>)
    requires start <= |s| && goal == DecodeObjectText(s, start)
    ensures Decoding(goal, s, start, start, 0, key, val, null, 0)
  {
    hide DecodeObjectText;
  }

  /** One turn: a field's next part, an entry, the end, or a failure. */
  method ObjectTurn(s: Bytes, start: nat, p0: nat, state0: nat, key0: Bytes, val0: Option<Node>, from: Object?<Node>,
      ghost m0: nat, ghost goal: Dec<Node>)
    returns (ok: bool, p: nat, state: nat, key: Bytes, val: Option<Node>, made: Object?<Node>, ghost m: nat)
    requires Colons(s, |s|) < Pow2(32) && Decoding(goal, s, start, p0, state0, key0, val0, from, m0) && state0 != 5
    modifies from, if from == null then {} else {from.entries}
    ensures !ok ==> goal.Fail?
    ensures ok ==> p0 < p <= |s| && Decoding(goal, s, start, p, state, key, val, made, m)
    ensures ok && made != null ==>
      && (made == from || fresh(made))
      && (fresh(made.entries) || (from != null && made.entries == old(from.entries)))
    decreases |s| - start, 1
  {
    hide DecodeObjectText, DecodeFields, Skip, ObjectSoFar, Building, TableOf, Colons, Pow2;
    ok, p, state, key, val, made, m := true, p0, state0, key0, val0, from, m0;
    var q := IgnoreSpace(s, p);
    var c := At(s, q);
    if FieldNext(state, c) {
      ok, p, state, key, val := FieldStep(s, start, p, state, key, val, goal, TableOf(made));
    } else if state == 4 && (c == ',' || c == '}') {
      p, state, made := EntryAdded(s, start, p, key, val.value, made, m, goal);
      val, m := None, m + 1;
    } else if state == 1 && c == '}' {
      EmptyStep(goal, s, start, p, made, m, key, val);
      if made != null { return false, p, state, key, val, made, m; }
      made := EmptyObject(s, start, q + 1, key, goal);
      p, state, val, m := q + 1, 5, None, 0;
    } else {
      Stuck(goal, s, start, p, state, TableOf(made), key, val);
      ok := false;
    }
  }

  /**
   * decode_object: state 0 before the brace, 1 before a key, 2 behind it, 3 behind the colon, 4 behind
   * the value, 5 done. The object is made with its first entry, so a key must follow every comma.
   */
  method DecodeObject(s: Bytes, start: nat) returns (n: nat, node: Option<Node>)
    requires Colons(s, |s|) < Pow2(32) && start <= |s|
    ensures match DecodeObjectText(s, start)
      case Fail => n == 0 && node == None
      case Ok(q, v) => n == q - start && node == Some(v)
    decreases |s| - start, 2
  {
    ghost var goal := DecodeObjectText(s, start);
    var p: nat, state: nat := start, 0;
    var made: Object?<Node> := null;
    ghost var m: nat := 0;
    var key: Bytes, val: Option<Node> := [], None;
    hide *;
    DecodingStarts(goal, s, start, key, val);
    while At(s, p) != '\0' && state != 5
      invariant start <= p <= |s| && Decoding(goal, s, start, p, state, key, val, made, m)
      invariant made != null ==> fresh(made) && fresh(made.entries)
      decreases state != 5, |s| - p
    {
      var ok;
      ok, p, state, key, val, made, m := ObjectTurn(s, start, p, state, key, val, made, m, goal);
      if !ok { return 0, None; }
    }
    n, node := ObjectResult(s, start, p, state, key, val, made, m, goal);
  }

  method ObjectResult(s: Bytes, start: nat, p: nat, state: nat, key: Bytes, val: Option<Node>, made: Object?<Node>,
      ghost m: nat, ghost goal: Dec<Node>)
    returns (n: nat, node: Option<Node>)
    requires Decoding(goal, s, start, p, state, key, val, made, m) && (At(s, p) == '\0' || state == 5)
    ensures match goal
      case Fail => n == 0 && node == None
      case Ok(q, v) => n == q - start && node == Some(v)
  {
    hide ObjectSoFar, Building, Colons;
    if state != 5 {
      StuckAtEnd(goal, s, start, p, state, TableOf(made), key, val);
      return 0, None;
    }
    DoneStep(goal, s, start, p, TableOf(made), key, val);
    n := p - start;
    node := Some(Obj(made.entries[..]));
  }

  lemma AtInText(s: Bytes, p: nat)
    requires At(s, p) != '\0'
    ensures p < |s|
  {
  }

  lemma StuckAtEnd(goal: Dec<Node>, s: Bytes, start: nat, p: nat, state: nat, t: Table<Node>, key: Bytes,
      val: Option<Node>)
    requires ObjectSoFar(goal, s, start, p, state, t, key, val) && state < 5 && At(s, p) == '\0'
    ensures goal.Fail?
  {
    hide ObjectSoFar;
    assert Skip(s, p) == p;
    Stuck(goal, s, start, p, state, t, key, val);
  }
}
