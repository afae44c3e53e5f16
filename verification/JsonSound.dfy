/** What an error-free run of the strict tokenizer has read: a partial tree that its state and saved states mirror. */
module JsonSound {
  import opened Collections
  import opened JsonTokens
  import opened JsonTree

  datatype Key =
    | NoKey
    | Named(w0: string, w1: string, key: string)
    | Colon(w0: string, w1: string, key: string, w2: string, w3: string)

  /** An open container: what it holds so far, and what has been read of its next element. */
  datatype Frame = InArr(items: Items, sep: Option<(string, string)>) | InObj(members: Members, key: Key)

  datatype Frames = Base | Under(up: Frames, f: Frame)

  /** The frame is waiting for a value. */
  predicate Waiting(f: Frame) {
    (f.InArr? && f.sep.Some?) || (f.InObj? && f.key.Colon?)
  }

  function SepText(items: Items, sep: Option<(string, string)>): string {
    match sep
    case None => ""
    case Some((w, w')) => if items.NoItems? then w' else w + "," + w'
  }

  function KeyText(members: Members, k: Key): string {
    match k
    case NoKey => ""
    case Named(w0, w1, key) => (if members.NoMembers? then "" else w0 + ",") + w1 + key
    case Colon(w0, w1, key, w2, w3) => (if members.NoMembers? then "" else w0 + ",") + w1 + key + w2 + ":" + w3
  }

  function FrameText(f: Frame): string {
    match f
    case InArr(items, sep) => "[" + ItemsText(items) + SepText(items, sep)
    case InObj(members, k) => "{" + MembersText(members) + KeyText(members, k)
  }

  function KeyTokens(k: Key): seq<Token> {
    if k.NoKey? then [] else [Token(String, k.key)]
  }

  function FrameTokens(f: Frame): seq<Token> {
    match f
    case InArr(items, sep) => [Token(Array, "[")] + ItemsTokens(items)
    case InObj(members, k) => [Token(Object, "{")] + MembersTokens(members) + KeyTokens(k)
  }

  function FramesText(fs: Frames): string {
    match fs
    case Base => ""
    case Under(up, f) => FramesText(up) + FrameText(f)
  }

  function FramesTokens(fs: Frames): seq<Token> {
    match fs
    case Base => []
    case Under(up, f) => FramesTokens(up) + FrameTokens(f)
  }

  ghost predicate KeyOk(k: Key) {
    match k
    case NoKey => true
    case Named(w0, w1, key) => Blank(w0) && Blank(w1) && StringOk(key)
    case Colon(w0, w1, key, w2, w3) => Blank(w0) && Blank(w1) && StringOk(key) && Blank(w2) && Blank(w3)
  }

  ghost predicate FrameOk(f: Frame) {
    match f
    case InArr(items, sep) => ItemsOk(items) && (sep.Some? ==> Blank(sep.value.0) && Blank(sep.value.1))
    case InObj(members, k) => MembersOk(members) && KeyOk(k)
  }

  /** Enclosing containers are all waiting for the value inside them. */
  ghost predicate FramesOk(fs: Frames) {
    match fs
    case Base => true
    case Under(up, f) => FrameOk(f) && FramesOk(up) && AllWaiting(up)
  }

  predicate AllWaiting(fs: Frames) {
    fs.Base? || (Waiting(fs.f) && AllWaiting(fs.up))
  }

  /** The states saved for the enclosing containers: 2 for an array, 5 for an object. */
  function Saved(fs: Frames): seq<nat> {
    match fs
    case Base => []
    case Under(up, f) => Saved(up) + [if f.InArr? then 2 else 5]
  }

  function StateOf(f: Frame): nat {
    match f
    case InArr(items, sep) => if sep.None? && items.NoItems? then 1 else 2
    case InObj(members, k) => if k.Named? then 4 else if k.NoKey? && members.NoMembers? then 3 else 5
  }

  /** The tokenizer inside the containers fs. */
  ghost predicate Mirrors(fs: Frames, st: St) {
    && fs.Under? && FramesOk(fs) && !Waiting(fs.f) && st.cur == StateOf(fs.f) && st.top == Saved(fs.up) &&
      st.err == NoErr
  }

  // ---- a complete value -------------------------------------------------------------------------

  function AddValue(f: Frame, v: Value): Frame
    requires Waiting(f)
  {
    match f
    case InArr(items, sep) =>
      InArr(if items.NoItems? then FirstItem(sep.value.1, v) else NextItem(items, sep.value.0, sep.value.1, v), None)
    case InObj(members, k) =>
      var m := Member(k.w1, k.key, k.w2, k.w3, v);
      InObj(if members.NoMembers? then FirstMember(m) else NextMember(members, k.w0, m), NoKey)
  }

  lemma AddValueText(f: Frame, v: Value)
    requires Waiting(f)
    ensures FrameText(AddValue(f, v)) == FrameText(f) + Text(v)
    ensures FrameTokens(AddValue(f, v)) == FrameTokens(f) + Tokens(v)
  {
    match f
    case InArr(items, sep) => AddItem(items, sep.value.0, sep.value.1, v);
    case InObj(members, k) => AddMember(members, k, v);
  }

  lemma AddItem(items: Items, w: string, w': string, v: Value)
    ensures var f := InArr(items, Some((w, w')));
      FrameText(AddValue(f, v)) == FrameText(f) + Text(v) && FrameTokens(AddValue(f, v)) == FrameTokens(f) + Tokens(v)
  {
    var f := InArr(items, Some((w, w')));
    var more := AddValue(f, v).items;
    hide Text, Tokens, ItemsText, ItemsTokens, SepText;
    ItemAdded(items, w, w', v);
    assert SepText(more, None) == "" by { NoSepText(more); }
    NoneRight("[" + ItemsText(more));
    FourParts("[", ItemsText(items), SepText(items, Some((w, w'))), Text(v));
    Assoc([Token(Array, "[")], ItemsTokens(items), Tokens(v));
  }

  lemma NoSepText(items: Items)
    ensures SepText(items, None) == ""
  {
  }

  /** A separator and the value behind it are one more item. */
  lemma ItemAdded(items: Items, w: string, w': string, v: Value)
    ensures var more := AddValue(InArr(items, Some((w, w'))), v).items;
      && ItemsText(more) == ItemsText(items) + SepText(items, Some((w, w'))) + Text(v)
      && ItemsTokens(more) == ItemsTokens(items) + Tokens(v)
  {
    hide Text, Tokens;
    if items.NoItems? {
      NoneLeft(w');
      NoneLeft(Tokens(v));
    } else {
      FourParts(ItemsText(items) + w, ",", w', Text(v));
      Regroup(ItemsText(items), w, w', Text(v));
    }
  }

  lemma AddMember(members: Members, k: Key, v: Value)
    requires k.Colon?
    ensures var f := InObj(members, k);
      FrameText(AddValue(f, v)) == FrameText(f) + Text(v) && FrameTokens(AddValue(f, v)) == FrameTokens(f) + Tokens(v)
  {
    var f := InObj(members, k);
    var more := AddValue(f, v).members;
    hide Text, Tokens, MembersText, MembersTokens, KeyText;
    MemberAdded(members, k, v);
    assert KeyText(more, NoKey) == "" by { NoKeyText(more); }
    NoneRight("{" + MembersText(more));
    NoneRight([Token(Object, "{")] + MembersTokens(more));
    FourParts("{", MembersText(members), KeyText(members, k), Text(v));
    FourParts([Token(Object, "{")], MembersTokens(members), KeyTokens(k), Tokens(v));
  }

  lemma FourParts<T>(a: seq<T>, b: seq<T>, c: seq<T>, d: seq<T>)
    ensures a + (b + c + d) == a + b + c + d
  {
  }

  lemma NoKeyText(members: Members)
    ensures KeyText(members, NoKey) == ""
  {
  }

  /** A key read up to its value, and the value, are one more member. */
  lemma MemberAdded(members: Members, k: Key, v: Value)
    requires k.Colon?
    ensures var more := AddValue(InObj(members, k), v).members;
      && MembersText(more) == MembersText(members) + KeyText(members, k) + Text(v)
      && MembersTokens(more) == MembersTokens(members) + KeyTokens(k) + Tokens(v)
  {
    hide Text, Tokens;
    var pre := k.w1 + k.key + k.w2 + ":" + k.w3;
    KeyTextIs(members, k);
    if members.NoMembers? {
      NoneLeft(pre);
      NoneLeft(KeyTokens(k));
    } else {
      hide MembersText, MembersTokens, KeyText;
      MembersUnfold(members, k.w0, Member(k.w1, k.key, k.w2, k.w3, v));
      Regroup(MembersText(members), k.w0, pre, Text(v));
    }
  }

  lemma KeyTextIs(members: Members, k: Key)
    requires k.Colon?
    ensures KeyText(members, k) ==
      (if members.NoMembers? then "" else k.w0 + ",") + (k.w1 + k.key + k.w2 + ":" + k.w3)
  {
  }

  lemma MembersUnfold(init: Members, w: string, m: Member)
    ensures MembersText(NextMember(init, w, m)) ==
      MembersText(init) + w + "," + (m.w1 + m.key + m.w2 + ":" + m.w3 + Text(m.v))
    ensures MembersTokens(NextMember(init, w, m)) == MembersTokens(init) + [Token(String, m.key)] + Tokens(m.v)
  {
    hide Text, Tokens;
  }

  lemma Regroup(u: string, w: string, pre: string, t: string)
    ensures u + w + "," + (pre + t) == u + (w + "," + pre) + t
  {
  }

  lemma AddValueOk(f: Frame, v: Value)
    requires Waiting(f) && FrameOk(f) && WellFormed(v)
    ensures FrameOk(AddValue(f, v)) && !Waiting(AddValue(f, v)) && StateOf(AddValue(f, v)) == if f.InArr? then 2 else 5
  {
  }

  /** What a step makes of the containers: they stay open, or the outermost one is complete. */
  datatype Progress = Open(fs: Frames) | Done(v: Value)

  ghost predicate Made(p: Progress, st: St, text: string, tokens: seq<Token>) {
    match p
    case Open(fs) => Mirrors(fs, st) && FramesText(fs) == text && FramesTokens(fs) == tokens
    case Done(v) =>
      && st.cur == 0 && st.top == [] && st.err == NoErr && !v.Scalar? && WellFormed(v)
      && Text(v) == text && Tokens(v) == tokens
  }

  /** A value is complete inside fs. */
  /** v is a whole value inside the containers fs, and st the state behind it. */
  ghost predicate Completable(fs: Frames, v: Value, st: St) {
    && FramesOk(fs) && AllWaiting(fs) && WellFormed(v) && st.err == NoErr
    && if fs.Base? then !v.Scalar? && st.cur == 0 && st.top == []
       else st.top == Saved(fs.up) && st.cur == (if fs.f.InArr? then 2 else 5)
  }

  lemma Complete(fs: Frames, v: Value, st: St) returns (p: Progress)
    requires Completable(fs, v, st)
    ensures Made(p, st, FramesText(fs) + Text(v), FramesTokens(fs) + Tokens(v))
  {
    if fs.Base? {
      p := Done(v);
      assert "" + Text(v) == Text(v) && [] + Tokens(v) == Tokens(v);
    } else {
      AddValueText(fs.f, v);
      AddValueOk(fs.f, v);
      hide FrameText, FrameTokens, FramesText, FramesTokens, Text, Tokens, AddValue, StateOf, FrameOk, Waiting;
      Grows(fs, AddValue(fs.f, v), Text(v), Tokens(v));
      p := Open(Under(fs.up, AddValue(fs.f, v)));
    }
  }

  // ---- steps ------------------------------------------------------------------------------------

  lemma ScalarSound(data: string, st: St)
    requires st.i < |data| && ReadValue(data, st).1.kind !in {Invalid, Object, Array}
    ensures ScalarOk(ReadValue(data, st).1)
    ensures var (s, t) := ReadValue(data, st); st.i <= s.i <= |data| && s == st.(i := s.i) && t.text == data[st.i..s.i]
  {
    hide ScanNumber, ScanString, StringOk, NumberOk;
    var c := data[st.i];
    if c == '"' {
      StringSound(data, st.i, st.i + 1);
    } else if IsDigit(c) || c == '-' {
      NumberRead(data, st);
    }
  }

  lemma NumberRead(data: string, st: St)
    requires st.i < |data| && ReadNumber(data, st).1.kind != Invalid
    ensures var (s, t) := ReadNumber(data, st);
      t.kind == Number && NumberOk(t.text) && st.i <= s.i <= |data| && s == st.(i := s.i) && t.text == data[st.i..s.i]
  {
    hide ScanNumber, NumberOk;
    var a := if data[st.i] == '-' then st.i + 1 else st.i;
    NumberStart(data, a);
    NumberSound(data, st.i, a);
  }

  /** Reading a value inside containers that all wait for it. */
  lemma ValueStep(data: string, st: St, fs: Frames) returns (p: Progress)
    requires st.i < |data| && st.err == NoErr && Ready(fs)
    requires st.top == Saved(fs.up) && st.cur == (if fs.f.InArr? then 2 else 5) && ReadValue(data, st).1.kind != Invalid
    ensures var (s, t) := ReadValue(data, st);
      st.i <= s.i <= |data| && Made(p, s, FramesText(fs) + data[st.i..s.i], FramesTokens(fs) + [t])
  {
    var (s, t) := ReadValue(data, st);
    var c := data[st.i];
    if c == '[' || c == '{' {
      p := Open(Under(fs, if c == '[' then InArr(NoItems, None) else InObj(NoMembers, NoKey)));
      OpenStep(data, st, fs, p);
    } else {
      ScalarSound(data, st);
      hide ReadValue;
      p := Complete(fs, Scalar(t), s);
    }
  }

  lemma OpenStep(data: string, st: St, fs: Frames, p: Progress)
    requires st.i < |data| && st.err == NoErr && Ready(fs) && (data[st.i] == '[' || data[st.i] == '{')
    requires st.top == Saved(fs.up) && st.cur == (if fs.f.InArr? then 2 else 5)
    requires p == Open(Under(fs, if data[st.i] == '[' then InArr(NoItems, None) else InObj(NoMembers, NoKey)))
    ensures var (s, t) := ReadValue(data, st);
      st.i <= s.i <= |data| && Made(p, s, FramesText(fs) + data[st.i..s.i], FramesTokens(fs) + [t])
  {
    var (s, t) := ReadValue(data, st);
    assert data[st.i..st.i + 1] == [data[st.i]];
    assert FrameText(p.fs.f) == data[st.i..s.i] && FrameTokens(p.fs.f) == [t];
  }

  lemma CloseStep(data: string, st0: nat, st: St, fs: Frames) returns (p: Progress)
    requires st0 <= st.i < |data| && Mirrors(fs, st) && !Waiting(fs.f) && Blank(data[st0..st.i])
    requires if fs.f.InArr? then data[st.i] == ']' else fs.f.key.NoKey? && data[st.i] == '}'
    ensures var (s, t) := Close(data, st, if fs.f.InArr? then CloseArray else CloseObject);
      Made(p, s, FramesText(fs) + data[st0..s.i], FramesTokens(fs) + [t])
  {
    assert fs.Under?;
    hide *;
    if fs.f.InArr? {
      p := CloseAs(data, st0, st, fs, CloseArray, Arr(fs.f.items, data[st0..st.i]));
    } else {
      p := CloseAs(data, st0, st, fs, CloseObject, Obj(fs.f.members, data[st0..st.i]));
    }
  }

  /** v is what the innermost container becomes when it is closed behind whitespace w. */
  ghost predicate Closes(f: Frame, kind: Kind, v: Value, w: string, c: char) {
    && !Waiting(f) && Blank(w)
    && if f.InArr? then kind == CloseArray && v == Arr(f.items, w) && c == ']'
       else f.key.NoKey? && kind == CloseObject && v == Obj(f.members, w) && c == '}'
  }

  lemma CloseAs(data: string, st0: nat, st: St, fs: Frames, kind: Kind, v: Value) returns (p: Progress)
    requires st0 <= st.i < |data| && fs.Under? && Mirrors(fs, st)
    requires Closes(fs.f, kind, v, data[st0..st.i], data[st.i])
    ensures var (s, t) := Close(data, st, kind); Made(p, s, FramesText(fs) + data[st0..s.i], FramesTokens(fs) + [t])
  {
    hide *;
    var (s, t) := Close(data, st, kind);
    CloseState(data, st, fs, kind, v, data[st0..st.i]);
    CloseBytes(data, st0, st.i, fs, kind, v);
    p := Complete(fs.up, v, s);
  }

  /** The container that is closed, and the machine that is back in the one around it. */
  lemma CloseState(data: string, st: St, fs: Frames, kind: Kind, v: Value, w: string)
    requires st.i < |data| && fs.Under? && Mirrors(fs, st) && Closes(fs.f, kind, v, w, data[st.i])
    ensures var (s, t) := Close(data, st, kind);
      s.i == st.i + 1 && t == Token(kind, [data[st.i]]) && Completable(fs.up, v, s)
  {
    assert data[st.i..st.i + 1] == [data[st.i]];
  }

  lemma CloseBytes(data: string, i: nat, j: nat, fs: Frames, kind: Kind, v: Value)
    requires i <= j < |data| && fs.Under? && Closes(fs.f, kind, v, data[i..j], data[j])
    ensures FramesText(fs.up) + Text(v) == FramesText(fs) + data[i..j + 1]
    ensures FramesTokens(fs.up) + Tokens(v) == FramesTokens(fs) + [Token(kind, [data[j]])]
  {
    hide *;
    OneMoreByte(data, i, j);
    ClosedText(fs, kind, v, data[i..j], data[j]);
  }

  lemma OneMoreByte(data: string, i: nat, j: nat)
    requires i <= j < |data|
    ensures data[i..j + 1] == data[i..j] + [data[j]]
  {
  }

  lemma ClosedText(fs: Frames, kind: Kind, v: Value, w: string, c: char)
    requires fs.Under? && Closes(fs.f, kind, v, w, c)
    ensures FramesText(fs.up) + Text(v) == FramesText(fs) + (w + [c])
    ensures FramesTokens(fs.up) + Tokens(v) == FramesTokens(fs) + [Token(kind, [c])]
  {
    hide *;
    UnderIs(fs);
    FrameCloses(fs.f, kind, v, w, c);
    Assoc(FramesText(fs.up), FrameText(fs.f), w + [c]);
    Assoc(FramesTokens(fs.up), FrameTokens(fs.f), [Token(kind, [c])]);
  }

  lemma FrameCloses(f: Frame, kind: Kind, v: Value, w: string, c: char)
    requires Closes(f, kind, v, w, c)
    ensures Text(v) == FrameText(f) + (w + [c]) && Tokens(v) == FrameTokens(f) + [Token(kind, [c])]
  {
    hide Text, Tokens, FrameText, FrameTokens;
    if f.InArr? {
      ArrCloses(f, v, w);
      assert [c] == "]";
    } else {
      ObjCloses(f, v, w);
      assert [c] == "}";
    }
  }

  lemma UnderIs(fs: Frames)
    requires fs.Under?
    ensures FramesText(fs) == FramesText(fs.up) + FrameText(fs.f)
    ensures FramesTokens(fs) == FramesTokens(fs.up) + FrameTokens(fs.f)
  {
    hide FrameText, FrameTokens;
  }

  lemma ArrCloses(f: Frame, v: Value, w: string)
    requires f.InArr? && !Waiting(f) && v == Arr(f.items, w)
    ensures Text(v) == FrameText(f) + (w + "]") && Tokens(v) == FrameTokens(f) + [Token(CloseArray, "]")]
  {
    hide ItemsText, ItemsTokens;
    NoneRight("[" + ItemsText(f.items));
    Assoc("[" + ItemsText(f.items), w, "]");
  }

  lemma ObjCloses(f: Frame, v: Value, w: string)
    requires f.InObj? && f.key.NoKey? && v == Obj(f.members, w)
    ensures Text(v) == FrameText(f) + (w + "}") && Tokens(v) == FrameTokens(f) + [Token(CloseObject, "}")]
  {
    hide MembersText, MembersTokens;
    NoneRight("{" + MembersText(f.members));
    NoneRight([Token(Object, "{")] + MembersTokens(f.members));
    Assoc("{" + MembersText(f.members), w, "}");
  }

  /** Separators read before the next part of the innermost container. */
  lemma Separated(fs: Frames, f: Frame, sep: string, more: string)
    requires fs.Under? && FrameText(f) == FrameText(fs.f) + sep
    ensures FramesText(Under(fs.up, f)) + more == FramesText(fs) + (sep + more)
  {
    hide FrameText;
  }

  lemma BlankSkip(data: string, i: nat)
    requires i <= |data|
    ensures Blank(data[i..SkipWs(data, i)])
  {
  }

  /** A value read after separators sep that lead from fs to the waiting containers under. */
  lemma AfterSep(data: string, st0: nat, st: St, fs: Frames, f: Frame, sep: string) returns (p: Progress)
    requires st0 <= st.i < |data| && st.err == NoErr && fs.Under? && Ready(Under(fs.up, f)) && sep == data[st0..st.i]
    requires FrameText(f) == FrameText(fs.f) + sep && FramesTokens(Under(fs.up, f)) == FramesTokens(fs)
    requires st.top == Saved(fs.up) && st.cur == (if f.InArr? then 2 else 5) && ReadValue(data, st).1.kind != Invalid
    ensures var (s, t) := ReadValue(data, st);
      st0 <= s.i <= |data| && Made(p, s, FramesText(fs) + data[st0..s.i], FramesTokens(fs) + [t])
  {
    hide ReadValue, Made, FrameText, FrameTokens, FramesText, FramesTokens, Ready, Saved;
    p := ValueStep(data, st, Under(fs.up, f));
    var s := ReadValue(data, st).0;
    Separated(fs, f, sep, data[st.i..s.i]);
    assert sep + data[st.i..s.i] == data[st0..s.i];
  }

  lemma ArrayStep(data: string, st0: nat, st: St, fs: Frames) returns (p: Progress)
    requires st0 <= st.i < |data| && Mirrors(fs, st) && fs.f.InArr? && Blank(data[st0..st.i])
    requires Dispatch(data, st).1.kind != Invalid
    ensures var (s, t) := Dispatch(data, st);
      st0 <= s.i <= |data| && Made(p, s, FramesText(fs) + data[st0..s.i], FramesTokens(fs) + [t])
  {
    hide ReadValue, Made, FrameText, FrameTokens, FramesText, FramesTokens, FramesOk, Saved, Ready, SkipWs;
    var w := data[st0..st.i];
    if data[st.i] == ']' {
      p := CloseStep(data, st0, st, fs);
    } else if st.cur == 1 {
      FirstSep(fs, w);
      p := AfterSep(data, st0, st.(cur := 2), fs, InArr(NoItems, Some(("", w))), w);
    } else {
      var s1 := After(data, st).value;
      BlankSkip(data, st.i + 1);
      var w' := data[st.i + 1..s1.i];
      NextSep(fs, w, w');
      assert data[st0..s1.i] == w + "," + w';
      p := AfterSep(data, st0, s1, fs, InArr(fs.f.items, Some((w, w'))), w + "," + w');
    }
  }

  lemma FirstSep(fs: Frames, w: string)
    requires fs.Under? && fs.f == InArr(NoItems, None) && FramesOk(fs) && Blank(w)
    ensures var f := InArr(NoItems, Some(("", w)));
      && FrameText(f) == FrameText(fs.f) + w && Ready(Under(fs.up, f))
      && FramesTokens(Under(fs.up, f)) == FramesTokens(fs)
  {
  }

  lemma NextSep(fs: Frames, w: string, w': string)
    requires fs.Under? && fs.f.InArr? && fs.f.sep.None? && !fs.f.items.NoItems? && FramesOk(fs) && Blank(w) && Blank(w')
    ensures var f := InArr(fs.f.items, Some((w, w')));
      && FrameText(f) == FrameText(fs.f) + (w + "," + w') && Ready(Under(fs.up, f))
      && FramesTokens(Under(fs.up, f)) == FramesTokens(fs)
  {
  }

  /** Reading a key. */
  lemma KeyStep(data: string, st0: nat, st: St, fs: Frames, w0: string, w1: string, sep: string) returns (p: Progress)
    requires st0 <= st.i < |data| && st.err == NoErr && FramesOk(fs) && fs.Under? && fs.f.InObj? && fs.f.key.NoKey?
    requires st.top == Saved(fs.up) && st.cur == 4
    requires Blank(w0) && Blank(w1) && sep == (if fs.f.members.NoMembers? then "" else w0 + ",") + w1
    requires sep == data[st0..st.i]
    requires ReadString(data, st).1.kind != Invalid
    ensures var (s, t) := ReadString(data, st);
      st0 <= s.i <= |data| && Made(p, s, FramesText(fs) + data[st0..s.i], FramesTokens(fs) + [t])
  {
    var (s, t) := ReadString(data, st);
    StringSound(data, st.i, st.i + 1);
    var f := InObj(fs.f.members, Named(w0, w1, t.text));
    p := Open(Under(fs.up, f));
    hide ReadString, ScanString;
    assert data[st0..s.i] == sep + t.text;
    KeyRead(fs, f, sep, t);
  }

  lemma KeyRead(fs: Frames, f: Frame, sep: string, t: Token)
    requires fs.Under? && fs.f.InObj? && fs.f.key.NoKey? && t.kind == String
    requires f.InObj? && f.key.Named? && f == InObj(fs.f.members, Named(f.key.w0, f.key.w1, t.text))
    requires sep == (if fs.f.members.NoMembers? then "" else f.key.w0 + ",") + f.key.w1
    ensures FramesText(Under(fs.up, f)) == FramesText(fs) + (sep + t.text)
    ensures FramesTokens(Under(fs.up, f)) == FramesTokens(fs) + [t]
  {
    hide *;
    KeyFrame(f, fs.f, sep, t);
    Grows(fs, f, sep + t.text, [t]);
  }

  lemma KeyFrame(f: Frame, f0: Frame, sep: string, t: Token)
    requires f0.InObj? && f0.key.NoKey? && t.kind == String
    requires f.InObj? && f.key.Named? && f == InObj(f0.members, Named(f.key.w0, f.key.w1, t.text))
    requires sep == (if f0.members.NoMembers? then "" else f.key.w0 + ",") + f.key.w1
    ensures FrameText(f) == FrameText(f0) + (sep + t.text) && FrameTokens(f) == FrameTokens(f0) + [t]
  {
    hide MembersText, MembersTokens;
    var body := "{" + MembersText(f0.members);
    NoneRight(body);
    NoneRight([Token(Object, "{")] + MembersTokens(f0.members));
    assert KeyText(f.members, f.key) == sep + t.text;
  }

  /** What is added to the innermost container is added to the whole. */
  lemma Grows(fs: Frames, f: Frame, text: string, tokens: seq<Token>)
    requires fs.Under? && FrameText(f) == FrameText(fs.f) + text && FrameTokens(f) == FrameTokens(fs.f) + tokens
    ensures FramesText(Under(fs.up, f)) == FramesText(fs) + text
    ensures FramesTokens(Under(fs.up, f)) == FramesTokens(fs) + tokens
  {
    hide FrameText, FrameTokens;
    assert FramesText(fs.up) + (FrameText(fs.f) + text) == FramesText(fs.up) + FrameText(fs.f) + text;
    assert FramesTokens(fs.up) + (FrameTokens(fs.f) + tokens) == FramesTokens(fs.up) + FrameTokens(fs.f) + tokens;
  }

  lemma ObjectStep(data: string, st0: nat, st: St, fs: Frames) returns (p: Progress)
    requires st0 <= st.i < |data| && Mirrors(fs, st) && fs.f.InObj? && fs.f.key.NoKey? && Blank(data[st0..st.i])
    requires Dispatch(data, st).1.kind != Invalid
    ensures var (s, t) := Dispatch(data, st);
      st0 <= s.i <= |data| && Made(p, s, FramesText(fs) + data[st0..s.i], FramesTokens(fs) + [t])
  {
    hide ReadString, Made, FrameText, FrameTokens, FramesText, FramesTokens, FramesOk, Saved, SkipWs;
    var w := data[st0..st.i];
    if data[st.i] == '}' {
      p := CloseStep(data, st0, st, fs);
    } else if st.cur == 3 {
      assert "" + w == w;
      p := KeyStep(data, st0, st.(cur := 4), fs, "", w, w);
    } else {
      var s1 := After(data, st).value;
      BlankSkip(data, st.i + 1);
      var w1 := data[st.i + 1..s1.i];
      assert data[st0..s1.i] == w + "," + w1;
      p := KeyStep(data, st0, s1.(cur := 4), fs, w, w1, w + "," + w1);
    }
  }

  lemma ColonStep(data: string, st0: nat, st: St, fs: Frames) returns (p: Progress)
    requires st0 <= st.i < |data| && Mirrors(fs, st) && fs.f.InObj? && fs.f.key.Named? && Blank(data[st0..st.i])
    requires Dispatch(data, st).1.kind != Invalid
    ensures var (s, t) := Dispatch(data, st);
      st0 <= s.i <= |data| && Made(p, s, FramesText(fs) + data[st0..s.i], FramesTokens(fs) + [t])
  {
    hide ReadValue, Made, FrameText, FrameTokens, FramesText, FramesTokens, FramesOk, Saved, Ready, SkipWs;
    var k, s1 := fs.f.key, After(data, st).value;
    BlankSkip(data, st.i + 1);
    var w2, w3 := data[st0..st.i], data[st.i + 1..s1.i];
    assert data[st0..s1.i] == w2 + ":" + w3;
    ColonSep(fs, w2, w3);
    p := AfterSep(data, st0, s1.(cur := 5), fs, InObj(fs.f.members, Colon(k.w0, k.w1, k.key, w2, w3)), w2 + ":" + w3);
  }

  lemma ColonSep(fs: Frames, w2: string, w3: string)
    requires fs.Under? && fs.f.InObj? && fs.f.key.Named? && FramesOk(fs) && Blank(w2) && Blank(w3)
    ensures var f := InObj(fs.f.members, Colon(fs.f.key.w0, fs.f.key.w1, fs.f.key.key, w2, w3));
      && FrameText(f) == FrameText(fs.f) + (w2 + ":" + w3) && FrameTokens(f) == FrameTokens(fs.f)
      && Ready(Under(fs.up, f)) && FramesTokens(Under(fs.up, f)) == FramesTokens(fs)
  {
  }

  /** Every container of fs waits for a value. */
  ghost predicate Ready(fs: Frames) {
    fs.Under? && FramesOk(fs) && AllWaiting(fs)
  }

  /** One error-free step inside open containers. */
  lemma StepSound(data: string, st: St, fs: Frames) returns (p: Progress)
    requires st.i <= |data| && Mirrors(fs, st) && Next(data, st).1.kind != Invalid
    ensures var (s, t) := Next(data, st);
      st.i <= s.i <= |data| && Made(p, s, FramesText(fs) + data[st.i..s.i], FramesTokens(fs) + [t])
  {
    var j := SkipWs(data, st.i);
    BlankSkip(data, st.i);
    var st' := st.(i := j);
    hide Dispatch, Made;
    if fs.f.InArr? {
      p := ArrayStep(data, st.i, st', fs);
    } else if fs.f.key.NoKey? {
      p := ObjectStep(data, st.i, st', fs);
    } else {
      p := ColonStep(data, st.i, st', fs);
    }
  }

  // ---- runs -------------------------------------------------------------------------------------

  /** Successive calls of Next, none of which fails. */
  ghost predicate IterRun(data: string, sts: seq<St>, toks: seq<Token>) {
    && |sts| == |toks| + 1
    && forall k :: 0 <= k < |toks| ==>
      sts[k].i <= |data| && Next(data, sts[k]) == (sts[k + 1], toks[k]) && toks[k].kind != Invalid
  }

  /** From an opening bracket at the top level until the machine is back there. */
  ghost predicate Bracketed(data: string, sts: seq<St>, toks: seq<Token>) {
    && IterRun(data, sts, toks) && |toks| > 0
    && sts[0].cur == 0 && sts[0].top == [] && sts[0].err == NoErr && (toks[0].kind == Object || toks[0].kind == Array)
    && (forall k :: 0 < k < |toks| ==> sts[k].cur != 0) && sts[|toks|].cur == 0
  }

  lemma OpenSound(data: string, st: St) returns (p: Progress)
    requires st.i <= |data| && st.cur == 0 && st.top == [] && st.err == NoErr
    requires Next(data, st).1.kind == Object || Next(data, st).1.kind == Array
    ensures var (s, t) := Next(data, st); var j := SkipWs(data, st.i);
      p.Open? && j <= s.i <= |data| && Made(p, s, data[j..s.i], [t])
  {
    hide ScanNumber, ScanDigits, ScanString, SkipWs;
    var j := SkipWs(data, st.i);
    var c := data[j];
    var f := if c == '[' then InArr(NoItems, None) else InObj(NoMembers, NoKey);
    p := Open(Under(Base, f));
    assert data[j..j + 1] == [c];
    assert FramesText(p.fs) == [c] && FramesTokens(p.fs) == [Next(data, st).1];
  }

  lemma RunNext(data: string, sts: seq<St>, toks: seq<Token>, k: nat)
    requires IterRun(data, sts, toks) && k < |toks|
    ensures |sts| == |toks| + 1 && sts[k].i <= |data| && Next(data, sts[k]) == (sts[k + 1], toks[k])
    ensures toks[k].kind != Invalid
  {
    hide Next;
  }

  lemma {:induction false} RunSound(data: string, sts: seq<St>, toks: seq<Token>, k: nat) returns (p: Progress)
    requires Bracketed(data, sts, toks) && 0 < k <= |toks|
    ensures var j := SkipWs(data, sts[0].i); j <= sts[k].i <= |data| && Made(p, sts[k], data[j..sts[k].i], toks[..k])
  {
    hide Next, IterRun, SkipWs, Mirrors, FramesText, FramesTokens, WellFormed, Text, Tokens;
    RunNext(data, sts, toks, k - 1);
    RunNext(data, sts, toks, 0);
    var j := SkipWs(data, sts[0].i);
    if k == 1 {
      p := OpenSound(data, sts[0]);
      assert toks[..1] == [toks[0]];
    } else {
      var q := RunSound(data, sts, toks, k - 1);
      p := StepSound(data, sts[k - 1], q.fs);
      assert data[j..sts[k].i] == data[j..sts[k - 1].i] + data[sts[k - 1].i..sts[k].i];
      assert toks[..k] == toks[..k - 1] + [toks[k - 1]];
    }
  }

  /**
   * An error-free run over brackets has read exactly one tree: its text is the bytes consumed, its flattening the
   * tokens.
   */
  lemma RunIsTree(data: string, sts: seq<St>, toks: seq<Token>) returns (v: Value)
    requires Bracketed(data, sts, toks)
    ensures WellFormed(v) && !v.Scalar? && Tokens(v) == toks
    ensures var j := SkipWs(data, sts[0].i); j <= sts[|toks|].i <= |data| && Text(v) == data[j..sts[|toks|].i]
  {
    var p := RunSound(data, sts, toks, |toks|);
    assert toks[..|toks|] == toks;
    v := p.v;
  }

  /** At every point of such a run the saved states are those of the open containers, and only 2 and 5 occur. */
  lemma StackMirrors(data: string, sts: seq<St>, toks: seq<Token>, k: nat) returns (fs: Frames)
    requires Bracketed(data, sts, toks) && 0 < k < |toks|
    ensures Mirrors(fs, sts[k]) && FramesTokens(fs) == toks[..k]
    ensures forall n :: 0 <= n < |sts[k].top| ==> sts[k].top[n] == 2 || sts[k].top[n] == 5
  {
    var p := RunSound(data, sts, toks, k);
    fs := p.fs;
    SavedStates(fs.up);
  }

  lemma {:induction false} SavedStates(fs: Frames)
    ensures forall n :: 0 <= n < |Saved(fs)| ==> Saved(fs)[n] == 2 || Saved(fs)[n] == 5
  {
    if fs.Under? {
      SavedStates(fs.up);
    }
  }
}
