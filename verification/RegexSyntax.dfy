/** What the two-stack pattern parser computes, on trees instead of automata. */
module RegexSyntax {
  import opened Collections
  import opened RegexLanguage

  datatype Stack<T> = Nil | Push(below: Stack<T>, top: T)

  datatype PState = PState(ops: Stack<char>, trees: Stack<Re>, cat: bool, escape: bool)

  function Priority(op: char): nat {
    match op
    case '(' => 1
    case '|' => 2
    case '&' => 3
    case _ => 0
  }

  /** None stands for an index out of range: the pattern lacks an operand. */
  function ApplyOp(op: char, trees: Stack<Re>): Option<Stack<Re>> {
    if op == '*' then
      match trees
      case Push(r, a) => Some(Push(r, Star(a)))
      case Nil => None
    else if op == '&' then
      match trees
      case Push(Push(r, a), b) => Some(Push(r, Cat(a, b)))
      case _ => None
    else if op == '|' then
      match trees
      case Push(Push(r, a), b) => Some(Push(r, Alt(a, b)))
      case _ => None
    else Some(trees)
  }

  function CloseParen(ops: Stack<char>, trees: Stack<Re>): Option<(Stack<char>, Stack<Re>)>
    decreases ops
  {
    match ops
    case Nil => Some((Nil, trees))
    case Push(rest, top) =>
      if top == '(' then Some((rest, trees))
      else match ApplyOp(top, trees)
        case None => None
        case Some(t) => CloseParen(rest, t)
  }

  /** Pops operators that bind at least as tightly as op; each popped operator is applied as op. */
  function Reduce(op: char, ops: Stack<char>, trees: Stack<Re>): Option<(Stack<char>, Stack<Re>)>
    decreases ops
  {
    match ops
    case Nil => Some((Nil, trees))
    case Push(rest, top) =>
      if Priority(top) < Priority(op) then Some((ops, trees))
      else match ApplyOp(op, trees)
        case None => None
        case Some(t) => Reduce(op, rest, t)
  }

  function AddOp(op: char, ops: Stack<char>, trees: Stack<Re>): Option<(Stack<char>, Stack<Re>)> {
    if op == '*' then
      match ApplyOp('*', trees)
      case None => None
      case Some(t) => Some((ops, t))
    else if op == ')' then CloseParen(ops, trees)
    else if op == '(' then Some((Push(ops, op), trees))
    else match Reduce(op, ops, trees)
      case None => None
      case Some(p) => Some((Push(p.0, op), p.1))
  }

  function Unescape(c: Letter): Letter {
    match c
    case 'n' => '\n'
    case 't' => '\t'
    case 'r' => '\r'
    case _ => c
  }

  /** A new operand follows a complete one: concatenate. */
  function Join(st: PState): Option<PState> {
    if !st.cat then Some(st)
    else match AddOp('&', st.ops, st.trees)
      case None => None
      case Some(p) => Some(st.(ops := p.0, trees := p.1))
  }

  function PutTree(st: PState, t: Re): Option<PState> {
    match Join(st)
    case None => None
    case Some(s) => Some(PState(s.ops, Push(s.trees, t), true, false))
  }

  function Operator(st: PState, c: char): Option<PState> {
    match AddOp(c, st.ops, st.trees)
    case None => None
    case Some(p) => Some(PState(p.0, p.1, c != '|' && c != '(', false))
  }

  function Step(st: PState, c: Letter): Option<PState> {
    if st.escape then PutTree(st.(escape := false), Chr(Unescape(c)))
    else if c == '\\' then Some(st.(escape := true))
    else if c == '(' then
      match Join(st)
      case None => None
      case Some(s) => Operator(s, c)
    else if c == '*' || c == '|' || c == ')' then Operator(st, c)
    else PutTree(st, Chr(c))
  }

  function Run(st: Option<PState>, exp: seq<Letter>): Option<PState>
    decreases |exp|
  {
    if exp == [] || st == None then st else Run(Step(st.value, exp[0]), exp[1..])
  }

  function Finish(ops: Stack<char>, trees: Stack<Re>): Option<Stack<Re>>
    decreases ops
  {
    match ops
    case Nil => Some(trees)
    case Push(rest, top) =>
      match ApplyOp(top, trees)
      case None => None
      case Some(t) => Finish(rest, t)
  }

  function Bottom(trees: Stack<Re>): Option<Re> {
    match trees
    case Nil => None
    case Push(Nil, t) => Some(t)
    case Push(r, _) => Bottom(r)
  }

  const START: PState := PState(Nil, Nil, false, false)

  function Parse(exp: seq<Letter>): Option<Re> {
    match Run(Some(START), exp)
    case None => None
    case Some(st) =>
      match Finish(st.ops, st.trees)
      case None => None
      case Some(t) => Bottom(t)
  }

  // ---- patterns ---------------------------------------------------------------------------------

  datatype Factor = Atom(c: Letter, style: Style) | Paren(g: Group) | Starred(f: Factor)
  datatype Factors = One(f: Factor) | Then(init: Factors, f: Factor)
  datatype Group = Last(alt: Factors) | More(alt: Factors, rest: Group)

  predicate Special(c: Letter) {
    c == '\\' || c == '(' || c == ')' || c == '*' || c == '|'
  }

  /** A backslash before one of these letters denotes a control character. */
  predicate Coded(c: Letter) {
    c == 'n' || c == 't' || c == 'r'
  }

  /** As itself, behind a backslash, or as a letter behind a backslash. */
  datatype Style = Plain | Escaped | AsLetter

  /** How a character is written: special ones need a backslash, and only control characters have a letter. */
  function Spelling(c: Letter, style: Style): seq<Letter> {
    if Special(c) then ['\\', c]
    else if style == Plain || Coded(c) then [c]
    else if style == AsLetter && c == '\n' then ['\\', 'n']
    else if style == AsLetter && c == '\t' then ['\\', 't']
    else if style == AsLetter && c == '\r' then ['\\', 'r']
    else ['\\', c]
  }

  function PrintFactor(f: Factor): seq<Letter> {
    match f
    case Atom(c, style) => Spelling(c, style)
    case Paren(g) => "(" + PrintGroup(g) + ")"
    case Starred(f) => PrintFactor(f) + "*"
  }

  function PrintFactors(s: Factors): seq<Letter> {
    match s
    case One(f) => PrintFactor(f)
    case Then(init, f) => PrintFactors(init) + PrintFactor(f)
  }

  function PrintGroup(g: Group): seq<Letter> {
    match g
    case Last(a) => PrintFactors(a)
    case More(a, r) => PrintFactors(a) + "|" + PrintGroup(r)
  }

  /** What a pattern is meant to denote. */
  function MeanFactor(f: Factor): Re {
    match f
    case Atom(c, _) => Chr(c)
    case Paren(g) => MeanGroup(None, g)
    case Starred(f) => Star(MeanFactor(f))
  }

  function MeanFactors(s: Factors): Re {
    match s
    case One(f) => MeanFactor(f)
    case Then(init, f) => Cat(MeanFactors(init), MeanFactor(f))
  }

  function Or(acc: Option<Re>, r: Re): Re {
    match acc
    case None => r
    case Some(u) => Alt(u, r)
  }

  function MeanGroup(acc: Option<Re>, g: Group): Re
    decreases g
  {
    match g
    case Last(a) => Or(acc, MeanFactors(a))
    case More(a, r) => MeanGroup(Some(Or(acc, MeanFactors(a))), r)
  }

  /**
   * What the parser takes it to denote: in every alternative but the last, the last factor is an alternative of its
   * own.
   */
  function ReadFactor(f: Factor): Re {
    match f
    case Atom(c, _) => Chr(c)
    case Paren(g) => ReadGroup(None, g)
    case Starred(f) => Star(ReadFactor(f))
  }

  function ReadFactors(s: Factors): Re {
    match s
    case One(f) => ReadFactor(f)
    case Then(init, f) => Cat(ReadFactors(init), ReadFactor(f))
  }

  function ReadEarlier(s: Factors): Re {
    match s
    case One(f) => ReadFactor(f)
    case Then(init, f) => Alt(ReadFactors(init), ReadFactor(f))
  }

  function ReadGroup(acc: Option<Re>, g: Group): Re
    decreases g
  {
    match g
    case Last(a) => Or(acc, ReadFactors(a))
    case More(a, r) => ReadGroup(Some(Or(acc, ReadEarlier(a))), r)
  }

  predicate SimpleFactor(f: Factor) {
    match f
    case Atom(_, _) => true
    case Paren(g) => SimpleGroup(g)
    case Starred(f) => SimpleFactor(f)
  }

  predicate SimpleFactors(s: Factors) {
    match s
    case One(f) => SimpleFactor(f)
    case Then(init, f) => SimpleFactors(init) && SimpleFactor(f)
  }

  /** Every alternative but the last, at every depth, is a single, possibly starred, atom or group. */
  predicate SimpleGroup(g: Group) {
    match g
    case Last(a) => SimpleFactors(a)
    case More(a, r) => a.One? && SimpleFactors(a) && SimpleGroup(r)
  }

  // ---- running the parser over a printed pattern ------------------------------------------------

  lemma {:induction false} RunCat(st: Option<PState>, a: seq<Letter>, b: seq<Letter>)
    ensures Run(st, a + b) == Run(Run(st, a), b)
    decreases |a|
  {
    if a == [] {
      assert a + b == b;
    } else if st.Some? {
      assert (a + b)[1..] == a[1..] + b;
      RunCat(Step(st.value, a[0]), a[1..], b);
    } else {
      assert Run(st, b) == None;
    }
  }

  lemma RunOne(st: PState, c: Letter)
    ensures Run(Some(st), [c]) == Step(st, c)
  {
    assert Run(Some(st), [c]) == Run(Step(st, c), [c][1..]);
  }

  /** The bottom of the operator stack inside a group. */
  predicate GroupBase(ops: Stack<char>) {
    ops == Nil || ops.top == '('
  }

  function Bar(ops: Stack<char>, acc: Option<Re>): Stack<char> {
    if acc.None? then ops else Push(ops, '|')
  }

  function Under(trees: Stack<Re>, acc: Option<Re>): Stack<Re> {
    match acc
    case None => trees
    case Some(u) => Push(trees, u)
  }

  /** The parser inside a group, before an alternative. */
  function Before(ops: Stack<char>, trees: Stack<Re>, acc: Option<Re>): PState {
    PState(Bar(ops, acc), Under(trees, acc), false, false)
  }

  /** ... and after one: its last concatenation is still pending. */
  function After(ops: Stack<char>, trees: Stack<Re>, acc: Option<Re>, s: Factors): PState {
    match s
    case One(f) => PState(Bar(ops, acc), Push(Under(trees, acc), ReadFactor(f)), true, false)
    case Then(init, f) =>
      PState(Push(Bar(ops, acc), '&'), Push(Push(Under(trees, acc), ReadFactors(init)), ReadFactor(f)), true, false)
  }

  /** However a character is written, the parser takes it for that character. */
  lemma {:induction false} RunAtom(st: PState, c: Letter, style: Style)
    requires !st.escape
    ensures Run(Some(st), Spelling(c, style)) == PutTree(st, Chr(c))
  {
    var w := Spelling(c, style);
    if |w| == 1 {
      RunOne(st, c);
    } else {
      assert w == [w[0]] + [w[1]];
      RunCat(Some(st), [w[0]], [w[1]]);
      RunOne(st, w[0]);
      RunOne(st.(escape := true), w[1]);
    }
  }

  lemma {:induction false} RunFactor(st: PState, f: Factor)
    requires !st.escape
    ensures Run(Some(st), PrintFactor(f)) == PutTree(st, ReadFactor(f))
    decreases f
  {
    match f
    case Atom(c, style) => RunAtom(st, c, style);
    case Starred(f') =>
      RunFactor(st, f');
      RunCat(Some(st), PrintFactor(f'), "*");
      var st' := PutTree(st, ReadFactor(f'));
      if st'.Some? {
        RunOne(st'.value, '*');
      }
    case Paren(g) =>
      RunCat(Some(st), "(", PrintGroup(g) + ")");
      assert PrintFactor(f) == "(" + (PrintGroup(g) + ")");
      RunOne(st, '(');
      var st1 := Join(st);
      if st1.Some? {
        var ops, trees := Push(st1.value.ops, '('), st1.value.trees;
        assert Step(st, '(') == Some(Before(ops, trees, None));
        RunCat(Some(Before(ops, trees, None)), PrintGroup(g), ")");
        var st2 := RunGroup(ops, trees, None, g);
        RunOne(st2, ')');
        CloseGroup(st2, ops, trees, None, g);
      }
  }

  lemma {:induction false} RunFactors(ops: Stack<char>, trees: Stack<Re>, acc: Option<Re>, s: Factors)
    requires GroupBase(ops)
    ensures Run(Some(Before(ops, trees, acc)), PrintFactors(s)) == Some(After(ops, trees, acc, s))
    decreases s
  {
    var st := Before(ops, trees, acc);
    match s
    case One(f) =>
      RunFactor(st, f);
    case Then(init, f) =>
      RunFactors(ops, trees, acc, init);
      RunCat(Some(st), PrintFactors(init), PrintFactor(f));
      RunFactor(After(ops, trees, acc, init), f);
      JoinsFactor(ops, trees, acc, init, f);
  }

  lemma JoinsFactor(ops: Stack<char>, trees: Stack<Re>, acc: Option<Re>, init: Factors, f: Factor)
    requires GroupBase(ops)
    ensures PutTree(After(ops, trees, acc, init), ReadFactor(f)) == Some(After(ops, trees, acc, Then(init, f)))
  {
    var st := After(ops, trees, acc, init);
    assert Reduce('&', Bar(ops, acc), Push(Under(trees, acc), ReadFactors(init))) ==
      Some((Bar(ops, acc), Push(Under(trees, acc), ReadFactors(init))));
  }

  /** The operators an alternative leaves pending are those of its own group. */
  lemma {:induction false} RunGroup(ops: Stack<char>, trees: Stack<Re>, acc: Option<Re>, g: Group) returns (st: PState)
    requires GroupBase(ops)
    ensures Run(Some(Before(ops, trees, acc)), PrintGroup(g)) == Some(st)
    ensures Ended(st, ops, trees, acc, g)
    decreases g
  {
    match g
    case Last(a) =>
      RunFactors(ops, trees, acc, a);
      st := After(ops, trees, acc, a);
    case More(a, r) =>
      var st0 := Some(Before(ops, trees, acc));
      RunFactors(ops, trees, acc, a);
      RunCat(st0, PrintFactors(a), "|" + PrintGroup(r));
      assert PrintGroup(g) == PrintFactors(a) + ("|" + PrintGroup(r));
      RunCat(Some(After(ops, trees, acc, a)), "|", PrintGroup(r));
      RunOne(After(ops, trees, acc, a), '|');
      BarReduces(ops, trees, acc, a);
      st := RunGroup(ops, trees, Some(Or(acc, ReadEarlier(a))), r);
  }

  /** st is the parser at the end of group g. */
  ghost predicate Ended(st: PState, ops: Stack<char>, trees: Stack<Re>, acc: Option<Re>, g: Group)
    decreases g
  {
    match g
    case Last(a) => st == After(ops, trees, acc, a)
    case More(a, r) => Ended(st, ops, trees, Some(Or(acc, ReadEarlier(a))), r)
  }

  lemma BarReduces(ops: Stack<char>, trees: Stack<Re>, acc: Option<Re>, a: Factors)
    requires GroupBase(ops)
    ensures Step(After(ops, trees, acc, a), '|') == Some(Before(ops, trees, Some(Or(acc, ReadEarlier(a)))))
  {
    var t := Push(trees, Or(acc, ReadEarlier(a)));
    assert Reduce('|', ops, t) == Some((ops, t));
    assert Reduce('|', Bar(ops, acc), Push(Under(trees, acc), ReadEarlier(a))) == Some((ops, t));
  }

  lemma {:induction false} CloseGroup(st: PState, ops: Stack<char>, trees: Stack<Re>, acc: Option<Re>, g: Group)
    requires Ended(st, ops, trees, acc, g) && ops != Nil && ops.top == '('
    ensures CloseParen(st.ops, st.trees) == Some((ops.below, Push(trees, ReadGroup(acc, g)))) && !st.escape
    decreases g
  {
    match g
    case Last(a) =>
      assert CloseParen(ops, Push(trees, ReadGroup(acc, g))) == Some((ops.below, Push(trees, ReadGroup(acc, g))));
      assert CloseParen(Bar(ops, acc), Push(Under(trees, acc), ReadFactors(a))) ==
        Some((ops.below, Push(trees, ReadGroup(acc, g))));
    case More(a, r) =>
      CloseGroup(st, ops, trees, Some(Or(acc, ReadEarlier(a))), r);
  }

  lemma {:induction false} FinishGroup(st: PState, trees: Stack<Re>, acc: Option<Re>, g: Group)
    requires Ended(st, Nil, trees, acc, g)
    ensures Finish(st.ops, st.trees) == Some(Push(trees, ReadGroup(acc, g)))
    decreases g
  {
    match g
    case Last(a) =>
      assert Finish(Bar(Nil, acc), Push(Under(trees, acc), ReadFactors(a))) == Some(Push(trees, ReadGroup(acc, g)));
    case More(a, r) =>
      FinishGroup(st, trees, Some(Or(acc, ReadEarlier(a))), r);
  }

  /** Every printed pattern is accepted, and what the parser builds is exactly its reading. */
  lemma ParsePrinted(g: Group)
    ensures Parse(PrintGroup(g)) == Some(ReadGroup(None, g))
  {
    var st := RunGroup(Nil, Nil, None, g);
    FinishGroup(st, Nil, None, g);
  }

  // ---- when the reading is the meaning ----------------------------------------------------------

  lemma {:induction false} ReadIsMeanFactor(f: Factor)
    ensures ReadFactor(f) == MeanFactor(f) <==> SimpleFactor(f)
    decreases f
  {
    match f
    case Atom(_, _) =>
    case Paren(g) => ReadIsMeanGroup(None, None, g);
    case Starred(f') => ReadIsMeanFactor(f');
  }

  lemma {:induction false} ReadIsMeanFactors(s: Factors)
    ensures ReadFactors(s) == MeanFactors(s) <==> SimpleFactors(s)
    decreases s
  {
    match s
    case One(f) => ReadIsMeanFactor(f);
    case Then(init, f) =>
      ReadIsMeanFactors(init);
      ReadIsMeanFactor(f);
  }

  lemma {:induction false} ReadIsMeanGroup(acc: Option<Re>, acc': Option<Re>, g: Group)
    requires acc.Some? <==> acc'.Some?
    ensures ReadGroup(acc, g) == MeanGroup(acc', g) <==> acc == acc' && SimpleGroup(g)
    decreases g
  {
    match g
    case Last(a) =>
      ReadIsMeanFactors(a);
    case More(a, r) =>
      ReadIsMeanFactors(a);
      ReadIsMeanGroup(Some(Or(acc, ReadEarlier(a))), Some(Or(acc', MeanFactors(a))), r);
  }

  /** The parser builds the intended tree exactly for the simple patterns. */
  lemma ParseIntended(g: Group)
    ensures Parse(PrintGroup(g)) == Some(MeanGroup(None, g)) <==> SimpleGroup(g)
  {
    ParsePrinted(g);
    ReadIsMeanGroup(None, None, g);
  }

  /** The shortest pattern that is misread: ab|c is taken for a|b|c. */
  lemma Misread()
    ensures var g := More(Then(One(Atom('a', Plain)), Atom('b', Plain)), Last(One(Atom('c', Plain))));
      && PrintGroup(g) == "ab|c"
      && Parse("ab|c") == Some(Alt(Alt(Chr('a'), Chr('b')), Chr('c')))
      && In(Parse("ab|c").value, "a") && !In(MeanGroup(None, g), "a")
  {
    var g := More(Then(One(Atom('a', Plain)), Atom('b', Plain)), Last(One(Atom('c', Plain))));
    ParsePrinted(g);
    assert PrintGroup(g) == "ab|c";
    assert !In(Cat(Chr('a'), Chr('b')), "a");
  }
}
