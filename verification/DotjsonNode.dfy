/** Decoded documents, what they mean, and the text the encoder prints for them. */
module DotjsonNode {
  import opened Collections
  import opened DotjsonTable

  datatype Node =
    | Null
    | False
    | True
    | Num(raw: Bytes)
    | Str(s: Bytes)
    | Obj(table: Table<Node>)
    | Arr(items: seq<Node>)

  /** The value a document stands for: an object is a map, whatever slots its entries are in. */
  datatype Value =
    | VNull
    | VFalse
    | VTrue
    | VNum(raw: Bytes)
    | VStr(s: Bytes)
    | VObj(fields: map<Bytes, Value>)
    | VArr(items: seq<Value>)

  function Width(n: Node): nat {
    match n case Obj(t) => |t| case Arr(items) => |items| case _ => 0
  }

  function Meaning(n: Node): Value
    decreases n, Width(n) + 1
  {
    match n
    case Null => VNull
    case False => VFalse
    case True => VTrue
    case Num(raw) => VNum(raw)
    case Str(s) => VStr(s)
    case Obj(t) => VObj(FieldsMeaning(n, |t|))
    case Arr(items) => VArr(ItemsMeaning(n, |items|))
  }

  function FieldsMeaning(n: Node, i: nat): map<Bytes, Value>
    requires n.Obj? && i <= |n.table|
    decreases n, i
  {
    if i == 0 then map[]
    else
      match n.table[i - 1]
      case None => FieldsMeaning(n, i - 1)
      case Some(e) => FieldsMeaning(n, i - 1)[CStr(e.key) := Meaning(e.val)]
  }

  function ItemsMeaning(n: Node, i: nat): seq<Value>
    requires n.Arr? && i <= |n.items|
    decreases n, i
  {
    if i == 0 then [] else ItemsMeaning(n, i - 1) + [Meaning(n.items[i - 1])]
  }

  // ---- the printed text -------------------------------------------------------------------------

  /** The letter that follows the backslash, for the characters that are escaped. */
  function EscapeOf(c: Byte): Option<Byte> {
    if c == '\"' then Some('\"') else if c == '\\' then Some('\\') else if c == '/' then Some('/')
    else if c == 8 as char then Some('b') else if c == 12 as char then Some('f') else if c == '\n' then Some('n')
    else if c == '\r' then Some('r') else if c == '\t' then Some('t') else None
  }

  function Escaped(c: Byte): Bytes {
    match EscapeOf(c)
    case Some(x) => ['\\', x]
    case None => [c]
  }

  /** A string up to its first NUL. */
  function EscapedAll(s: Bytes): Bytes {
    if s == [] || s[0] == '\0' then [] else Escaped(s[0]) + EscapedAll(s[1..])
  }

  const NULL_TEXT: Bytes := ['n', 'u', 'l', 'l']
  const FALSE_TEXT: Bytes := ['f', 'a', 'l', 's', 'e']
  const TRUE_TEXT: Bytes := ['t', 'r', 'u', 'e']

  function Text(n: Node): Bytes
    decreases n, Width(n) + 1
  {
    match n
    case Null => NULL_TEXT
    case False => FALSE_TEXT
    case True => TRUE_TEXT
    case Num(raw) => CStr(raw)
    case Str(s) => ['\"'] + EscapedAll(s) + ['\"']
    case Obj(t) => ['{'] + FieldsText(n, 0, true) + ['}']
    case Arr(items) => ['['] + ItemsText(n, 0) + [']']
  }

  /** The fields from slot i on; the key is printed as it is. */
  function FieldsText(n: Node, i: nat, first: bool): Bytes
    requires n.Obj? && i <= |n.table|
    decreases n, |n.table| - i
  {
    if i == |n.table| then []
    else
      match n.table[i]
      case None => FieldsText(n, i + 1, first)
      case Some(e) =>
        (if first then [] else [',']) + FieldText(e) + FieldsText(n, i + 1, false)
  }

  function FieldText(e: Entry<Node>): Bytes
    decreases e.val, Width(e.val) + 2
  {
    ['\"'] + e.key + ['\"', ':'] + Text(e.val)
  }

  function ItemsText(n: Node, i: nat): Bytes
    requires n.Arr? && i <= |n.items|
    decreases n, |n.items| - i
  {
    if i == |n.items| then []
    else (if i == 0 then [] else [',']) + Text(n.items[i]) + ItemsText(n, i + 1)
  }
}

/** The encoder: it always computes the length, and writes what fits. */
module DotjsonEncode {
  import opened DotjsonTable
  import opened DotjsonNode

  /** What has been printed so far is in the buffer, if it fits in len bytes from at. */
  ghost predicate Wrote(b: Bytes, at: nat, len: nat, done: Bytes) {
    |done| <= len && at + len <= |b| ==> b[at..at + |done|] == done
  }

  /** Nothing outside the len bytes from at differs. */
  ghost predicate Outside(b: Bytes, c: Bytes, at: nat, len: nat) {
    |b| == |c| && forall i :: 0 <= i < |b| && !(at <= i < at + len) ==> b[i] == c[i]
  }

  /** `if (len > r) buf[r] = c`. */
  method PutByte(buf: array<Byte>, at: nat, len: nat, ghost done: Bytes, c: Byte, r: nat)
    requires r == |done| && (len > 0 ==> at + len <= buf.Length)
    requires r < len ==> Wrote(buf[..], at, len, done)
    modifies buf
    ensures Wrote(buf[..], at, len, done + [c])
    ensures Outside(old(buf[..]), buf[..], at, len)
  {
    if len > r {
      buf[at + r] := c;
    }
  }

  /** One character of a string, behind a backslash if it needs one. */
  method PutEscaped(buf: array<Byte>, at: nat, len: nat, ghost done: Bytes, c: Byte, r: nat) returns (q: nat)
    requires r == |done| && (len > 0 ==> at + len <= buf.Length)
    requires Wrote(buf[..], at, len, done)
    modifies buf
    ensures q == r + |Escaped(c)| && Wrote(buf[..], at, len, done + Escaped(c))
    ensures Outside(old(buf[..]), buf[..], at, len)
  {
    var e := EscapeOf(c);
    if e.Some? {
      PutByte(buf, at, len, done, '\\', r);
      PutByte(buf, at, len, done + ['\\'], e.value, r + 1);
      assert done + ['\\'] + [e.value] == done + Escaped(c);
      q := r + 2;
    } else {
      PutByte(buf, at, len, done, c, r);
      q := r + 1;
    }
  }

  method EncodeString(s: Bytes, buf: array<Byte>, at: nat, len: nat) returns (r: nat)
    requires len > 0 ==> at + len <= buf.Length
    modifies buf
    ensures r == |Text(Str(s))| && Wrote(buf[..], at, len, Text(Str(s)))
    ensures Outside(old(buf[..]), buf[..], at, len)
  {
    hide Text, Wrote, Escaped, EscapedAll;
    PutByte(buf, at, len, Nothing(buf[..], at, len), '\"', 0);
    ghost var done: Bytes := [] + ['\"'];
    r := 1;
    var p := 0;
    while p < |s| && s[p] != '\0'
      invariant p <= |s| && r == |done| && Wrote(buf[..], at, len, done)
      invariant done + EscapedAll(s[p..]) == ['\"'] + EscapedAll(s)
      invariant Outside(old(buf[..]), buf[..], at, len)
    {
      r := PutEscaped(buf, at, len, done, s[p], r);
      EscapedStep(s, p, done);
      done := done + Escaped(s[p]);
      p := p + 1;
    }
    PutByte(buf, at, len, done, '\"', r);
    r := r + 1;
    EscapedEnd(s, p, done);
  }

  lemma EscapedStep(s: Bytes, p: nat, done: Bytes)
    requires p < |s| && s[p] != '\0'
    ensures done + Escaped(s[p]) + EscapedAll(s[p + 1..]) == done + EscapedAll(s[p..])
  {
    assert s[p..][1..] == s[p + 1..];
    hide Escaped;
  }

  lemma EscapedEnd(s: Bytes, p: nat, done: Bytes)
    requires p <= |s| && (p < |s| ==> s[p] == '\0') && done + EscapedAll(s[p..]) == ['\"'] + EscapedAll(s)
    ensures Text(Str(s)) == done + ['\"']
  {
    assert EscapedAll(s[p..]) == [];
    hide EscapedAll;
    assert done == ['\"'] + EscapedAll(s);
  }

  /** Before the first byte. */
  ghost function Nothing(b: Bytes, at: nat, len: nat): (done: Bytes)
    ensures done == [] && Wrote(b, at, len, done)
  {
    []
  }

  function Room(len: nat, r: nat): nat {
    if len > r then len - r else 0
  }

  /** Text written after what was there before. */
  lemma Joined(b: Bytes, c: Bytes, at: nat, len: nat, done: Bytes, t: Bytes)
    requires len > 0 ==> at + len <= |b|
    requires Wrote(b, at, len, done) && Outside(b, c, at + |done|, Room(len, |done|))
    requires Wrote(c, at + |done|, Room(len, |done|), t)
    ensures Wrote(c, at, len, done + t) && Outside(b, c, at, len)
  {
    var u := done + t;
    if |u| <= len && at + len <= |c| {
      forall i | 0 <= i < |u| ensures c[at..at + |u|][i] == u[i] {
        if i < |done| {
          assert b[at..at + |done|][i] == b[at + i] == c[at + i];
        } else if len > |done| {
          assert c[at + |done|..at + |u|][i - |done|] == t[i - |done|];
        }
      }
    }
  }

  lemma JoinedBelow(b: Bytes, c: Bytes, at: nat, len: nat, done: Bytes, t: Bytes)
    requires len > 0 ==> at + len <= |b|
    requires |done| < len ==> Wrote(b, at, len, done)
    requires Outside(b, c, at + |done|, Room(len, |done|)) && Wrote(c, at + |done|, Room(len, |done|), t)
    ensures (|done + t| < len ==> Wrote(c, at, len, done + t)) && Outside(b, c, at, len)
  {
    if |done| < len {
      Joined(b, c, at, len, done, t);
    }
  }

  /** A fixed text, written only if all of it fits. */
  method PutAll(t: Bytes, buf: array<Byte>, at: nat, len: nat)
    requires len > 0 ==> at + len <= buf.Length
    modifies buf
    ensures Wrote(buf[..], at, len, t) && Outside(old(buf[..]), buf[..], at, len)
  {
    if len >= |t| {
      forall i | 0 <= i < |t| { buf[at + i] := t[i]; }
    }
  }

  /** The key between quotes and the colon. */
  method EncodeKey(key: Bytes, buf: array<Byte>, at: nat, len: nat) returns (r: nat)
    requires len > 0 ==> at + len <= buf.Length
    modifies buf
    ensures r == 3 + |key| && Wrote(buf[..], at, len, ['\"'] + key + ['\"', ':'])
    ensures Outside(old(buf[..]), buf[..], at, len)
  {
    PutAll(['\"'] + key + ['\"'], buf, at, len);
    r := 2 + |key|;
    PutByte(buf, at, len, ['\"'] + key + ['\"'], ':', r);
    r := r + 1;
    assert ['\"'] + key + ['\"'] + [':'] == ['\"'] + key + ['\"', ':'];
  }

  method EncodeField(e: Entry<Node>, buf: array<Byte>, at: nat, len: nat) returns (r: nat)
    requires len > 0 ==> at + len <= buf.Length
    modifies buf
    ensures r == |FieldText(e)| && Wrote(buf[..], at, len, FieldText(e))
    ensures Outside(old(buf[..]), buf[..], at, len)
    decreases e.val, 3
  {
    hide Text, Wrote;
    r := EncodeKey(e.key, buf, at, len);
    ghost var b, k := buf[..], r;
    var m := EncodeNode(e.val, buf, at + r, Room(len, r));
    r := r + m;
    Joined(b, buf[..], at, len, ['\"'] + e.key + ['\"', ':'], Text(e.val));
  }

  method EncodeObject(n: Node, buf: array<Byte>, at: nat, len: nat) returns (r: nat)
    requires n.Obj? && (len > 0 ==> at + len <= buf.Length)
    modifies buf
    ensures r == |Text(n)| && Wrote(buf[..], at, len, Text(n))
    ensures Outside(old(buf[..]), buf[..], at, len)
    decreases n, 1
  {
    assert Text(n) == ['{'] + FieldsText(n, 0, true) + ['}'] &&
      FieldsText(n, |n.table|, true) == FieldsText(n, |n.table|, false) == [];
    hide Text, Wrote, FieldText, FieldsText;
    PutByte(buf, at, len, Nothing(buf[..], at, len), '{', 0);
    ghost var done: Bytes := [] + ['{'];
    r := 1;
    var empty := true;
    for i := 0 to |n.table|
      invariant r == |done| && Wrote(buf[..], at, len, done)
      invariant done + FieldsText(n, i, empty) == ['{'] + FieldsText(n, 0, true)
      invariant Outside(old(buf[..]), buf[..], at, len)
    {
      FieldsStep(n, i, empty, done);
      if n.table[i].None? { continue; }
      r, done := EncodeEntry(n, i, buf, at, len, empty, done, r);
      empty := false;
    }
    PutByte(buf, at, len, done, '}', r);
    r := r + 1;
  }

  method EncodeEntry(n: Node, i: nat, buf: array<Byte>, at: nat, len: nat, empty: bool, ghost done: Bytes, r: nat)
    returns (q: nat, ghost next: Bytes)
    requires n.Obj? && i < |n.table| && n.table[i].Some? && (len > 0 ==> at + len <= buf.Length)
    requires r == |done| && Wrote(buf[..], at, len, done)
    modifies buf
    ensures next == (if empty then done else done + [',']) + FieldText(n.table[i].value)
    ensures q == |next| && Wrote(buf[..], at, len, next) && Outside(old(buf[..]), buf[..], at, len)
    decreases n, 0
  {
    hide Text, Wrote, FieldText, Outside;
    ghost var b0 := buf[..];
    q, next := EncodeComma(!empty, buf, at, len, done, r);
    ghost var b := buf[..];
    var m := EncodeField(n.table[i].value, buf, at + q, Room(len, q));
    Joined(b, buf[..], at, len, next, FieldText(n.table[i].value));
    OutsideBoth(b0, b, buf[..], at, len);
    q := q + m;
    next := next + FieldText(n.table[i].value);
  }

  lemma FieldsStep(n: Node, i: nat, empty: bool, done: Bytes)
    requires n.Obj? && i < |n.table|
    ensures n.table[i].None? ==> FieldsText(n, i, empty) == FieldsText(n, i + 1, empty)
    ensures n.table[i].Some? ==>
      done + FieldsText(n, i, empty) ==
        (if empty then done else done + [',']) + FieldText(n.table[i].value) + FieldsText(n, i + 1, false)
  {
    hide FieldText;
  }

  /** The opening bracket is written only when there is room for two bytes, which every array needs. */
  method EncodeArray(n: Node, buf: array<Byte>, at: nat, len: nat) returns (r: nat)
    requires n.Arr? && (len > 0 ==> at + len <= buf.Length)
    modifies buf
    ensures r == |Text(n)| && Wrote(buf[..], at, len, Text(n))
    ensures Outside(old(buf[..]), buf[..], at, len)
    decreases n, 1
  {
    assert Text(n) == ['['] + ItemsText(n, 0) + [']'];
    ghost var done: Bytes := ['['];
    if len > 1 {
      buf[at] := '[';
    }
    assert 1 < len ==> Wrote(buf[..], at, len, done);
    hide Text, Wrote, ItemsText;
    r := 1;
    for i := 0 to |n.items|
      invariant r == |done| && (r < len ==> Wrote(buf[..], at, len, done))
      invariant done + ItemsText(n, i) == ['['] + ItemsText(n, 0)
      invariant Outside(old(buf[..]), buf[..], at, len)
    {
      r, done := EncodeItem(n, i, buf, at, len, done, r);
    }
    ItemsEnd(n);
    PutByte(buf, at, len, done, ']', r);
    r := r + 1;
  }

  /** A comma unless it is the first, then the item. */
  method EncodeItem(n: Node, i: nat, buf: array<Byte>, at: nat, len: nat, ghost done: Bytes, r: nat)
    returns (q: nat, ghost next: Bytes)
    requires n.Arr? && i < |n.items| && (len > 0 ==> at + len <= buf.Length)
    requires r == |done| && (r < len ==> Wrote(buf[..], at, len, done))
    modifies buf
    ensures q == |next| && (q < len ==> Wrote(buf[..], at, len, next))
    ensures next + ItemsText(n, i + 1) == done + ItemsText(n, i)
    ensures Outside(old(buf[..]), buf[..], at, len)
    decreases n, 0
  {
    hide Text, Wrote, ItemsText, Outside;
    ghost var b0 := buf[..];
    ItemsStep(n, i, done);
    q, next := EncodeComma(i > 0, buf, at, len, done, r);
    ghost var b := buf[..];
    var m := EncodeNode(n.items[i], buf, at + q, Room(len, q));
    JoinedBelow(b, buf[..], at, len, next, Text(n.items[i]));
    OutsideBoth(b0, b, buf[..], at, len);
    q := q + m;
    next := next + Text(n.items[i]);
  }

  method EncodeComma(comma: bool, buf: array<Byte>, at: nat, len: nat, ghost done: Bytes, r: nat)
    returns (q: nat, ghost next: Bytes)
    requires len > 0 ==> at + len <= buf.Length
    requires r == |done| && (r < len ==> Wrote(buf[..], at, len, done))
    modifies buf
    ensures next == (if comma then done + [','] else done) && q == |next| && (q < len ==> Wrote(buf[..], at, len, next))
    ensures comma || old(Wrote(buf[..], at, len, done)) ==> Wrote(buf[..], at, len, next)
    ensures Outside(old(buf[..]), buf[..], at, len)
  {
    q, next := r, done;
    if comma {
      PutByte(buf, at, len, done, ',', r);
      q := r + 1;
      next := done + [','];
    }
  }

  lemma OutsideBoth(a: Bytes, b: Bytes, c: Bytes, at: nat, len: nat)
    requires Outside(a, b, at, len) && Outside(b, c, at, len)
    ensures Outside(a, c, at, len)
  {
  }

  lemma ItemsStep(n: Node, i: nat, done: Bytes)
    requires n.Arr? && i < |n.items|
    ensures done + ItemsText(n, i) == (if i > 0 then done + [','] else done) + Text(n.items[i]) + ItemsText(n, i + 1)
  {
    hide Text;
  }

  lemma ItemsEnd(n: Node)
    requires n.Arr?
    ensures ItemsText(n, |n.items|) == []
  {
  }

  method EncodeNode(n: Node, buf: array<Byte>, at: nat, len: nat) returns (r: nat)
    requires len > 0 ==> at + len <= buf.Length
    modifies buf
    ensures r == |Text(n)| && Wrote(buf[..], at, len, Text(n))
    ensures Outside(old(buf[..]), buf[..], at, len)
    decreases n, 2
  {
    match n
    case Null =>
      PutAll(NULL_TEXT, buf, at, len);
      r := 4;
    case False =>
      PutAll(FALSE_TEXT, buf, at, len);
      r := 5;
    case True =>
      PutAll(TRUE_TEXT, buf, at, len);
      r := 4;
    case Num(raw) =>
      r := |CStr(raw)|;
      PutAll(CStr(raw), buf, at, len);
    case Str(s) => r := EncodeString(s, buf, at, len);
    case Obj(_) => r := EncodeObject(n, buf, at, len);
    case Arr(_) => r := EncodeArray(n, buf, at, len);
  }

  /**
   * dotjson_encode: the length comes back whatever the buffer, an empty one included; a buffer with a
   * byte to spare for the NUL receives exactly the text.
   */
  method Encode(n: Node, buf: array<Byte>) returns (r: nat)
    modifies buf
    ensures r == |Text(n)|
    ensures buf.Length > r ==> buf[..r] == Text(n) && (r > 0 ==> buf[r] == '\0')
  {
    var len := buf.Length;
    r := EncodeNode(n, buf, 0, if len > 0 then len - 1 else 0);
    if r != 0 && len > r {
      buf[r] := '\0';
    }
  }
}
