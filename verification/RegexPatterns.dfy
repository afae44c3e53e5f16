/** Which patterns the parser accepts: exactly the printed ones, up to outer parentheses and a last backslash. */
module RegexPatterns {
  import opened Collections
  import opened RegexLanguage
  import opened RegexSyntax

  // ---- an opening parenthesis in front ------------------------------------------------------------

  /** The operators with an opening parenthesis below them. */
  function Lifted(ops: Stack<char>): Stack<char> {
    match ops
    case Nil => Push(Nil, '(')
    case Push(rest, top) => Push(Lifted(rest), top)
  }

  function Lift(st: PState): PState {
    st.(ops := Lifted(st.ops))
  }

  lemma {:induction false} LiftedReduce(op: char, ops: Stack<char>, trees: Stack<Re>)
    requires op == '&' || op == '|'
    ensures match Reduce(op, ops, trees)
      case None => Reduce(op, Lifted(ops), trees) == None
      case Some(p) => Reduce(op, Lifted(ops), trees) == Some((Lifted(p.0), p.1))
    decreases ops
  {
    match ops
    case Nil =>
    case Push(rest, top) =>
      if Priority(top) >= Priority(op) {
        match ApplyOp(op, trees)
        case None =>
        case Some(t) => LiftedReduce(op, rest, t);
      }
  }

  lemma {:induction false} LiftedClose(ops: Stack<char>, trees: Stack<Re>)
    ensures match CloseParen(ops, trees)
      case None => CloseParen(Lifted(ops), trees) == None
      case Some(p) =>
        CloseParen(Lifted(ops), trees) == Some(p) || CloseParen(Lifted(ops), trees) == Some((Lifted(p.0), p.1))
    decreases ops
  {
    match ops
    case Nil =>
    case Push(rest, top) =>
      if top != '(' {
        match ApplyOp(top, trees)
        case None =>
        case Some(t) => LiftedClose(rest, t);
      }
  }

  lemma {:induction false} LiftedFinish(ops: Stack<char>, trees: Stack<Re>)
    ensures Finish(Lifted(ops), trees) == Finish(ops, trees)
    decreases ops
  {
    match ops
    case Nil => assert Finish(Push(Nil, '('), trees) == Finish(Nil, trees);
    case Push(rest, top) =>
      match ApplyOp(top, trees)
      case None =>
      case Some(t) => LiftedFinish(rest, t);
  }

  /** The same answer, or the same with the parenthesis still there. */
  ghost predicate Follows(a: Option<PState>, b: Option<PState>) {
    a == b || (a.Some? && b.Some? && a.value == Lift(b.value))
  }

  lemma LiftedJoin(st: PState)
    ensures match Join(st)
      case None => Join(Lift(st)) == None
      case Some(s) => Join(Lift(st)) == Some(Lift(s))
  {
    LiftedReduce('&', st.ops, st.trees);
  }

  lemma LiftedStep(st: PState, c: Letter)
    ensures Follows(Step(Lift(st), c), Step(st, c))
  {
    LiftedJoin(st.(escape := false));
    LiftedJoin(st);
    LiftedReduce('|', st.ops, st.trees);
    LiftedClose(st.ops, st.trees);
    hide Reduce, CloseParen, Join;
  }

  lemma {:induction false} LiftedRun(st: PState, exp: seq<Letter>)
    ensures Follows(Run(Some(Lift(st)), exp), Run(Some(st), exp))
    decreases |exp|
  {
    if exp != [] {
      LiftedStep(st, exp[0]);
      hide Step;
      var next := Step(st, exp[0]);
      if next.Some? && Step(Lift(st), exp[0]) != next {
        LiftedRun(next.value, exp[1..]);
      }
    }
  }

  /** An opening parenthesis in front of a pattern changes nothing. */
  lemma OpenInFront(exp: seq<Letter>)
    ensures Parse(['('] + exp) == Parse(exp)
  {
    RunCat(Some(START), ['('], exp);
    RunOne(START, '(');
    assert Step(START, '(') == Some(Lift(START));
    LiftedRun(START, exp);
    var st := Run(Some(START), exp);
    if st.Some? {
      LiftedFinish(st.value.ops, st.value.trees);
    }
  }

  // ---- a closing parenthesis, or a backslash, behind ------------------------------------------------

  lemma {:induction false} CloseThenFinish(ops: Stack<char>, trees: Stack<Re>)
    ensures Finish(ops, trees) == match CloseParen(ops, trees) case None => None case Some(p) => Finish(p.0, p.1)
    decreases ops
  {
    match ops
    case Nil =>
    case Push(rest, top) =>
      if top != '(' {
        match ApplyOp(top, trees)
        case None =>
        case Some(t) => CloseThenFinish(rest, t);
      }
  }

  /** The pattern ends in an odd number of backslashes. */
  predicate Dangling(exp: seq<Letter>) {
    exp != [] && exp[|exp| - 1] == '\\' && !Dangling(exp[..|exp| - 1])
  }

  /** The parser waits for an escaped character exactly after an odd number of backslashes. */
  lemma {:induction false} WaitsAfter(exp: seq<Letter>)
    requires Run(Some(START), exp).Some?
    ensures Run(Some(START), exp).value.escape <==> Dangling(exp)
    decreases |exp|
  {
    if exp != [] {
      var init, c := exp[..|exp| - 1], exp[|exp| - 1];
      assert exp == init + [c];
      RunCat(Some(START), init, [c]);
      WaitsAfter(init);
      RunOne(Run(Some(START), init).value, c);
    }
  }

  /** A closing parenthesis behind a pattern changes nothing, unless it is escaped. */
  lemma CloseBehind(exp: seq<Letter>)
    requires !Dangling(exp)
    ensures Parse(exp + [')']) == Parse(exp)
  {
    RunCat(Some(START), exp, [')']);
    var st := Run(Some(START), exp);
    if st.Some? {
      WaitsAfter(exp);
      RunOne(st.value, ')');
      CloseThenFinish(st.value.ops, st.value.trees);
    }
  }

  /** The pattern without a backslash that escapes nothing. */
  function Trim(exp: seq<Letter>): seq<Letter> {
    if Dangling(exp) then exp[..|exp| - 1] else exp
  }

  /** A last backslash that escapes nothing is as good as none. */
  lemma BackslashBehind(exp: seq<Letter>)
    ensures Parse(exp) == Parse(Trim(exp)) && !Dangling(Trim(exp))
  {
    if Dangling(exp) {
      var init := Trim(exp);
      assert exp == init + ['\\'];
      RunCat(Some(START), init, ['\\']);
      var st := Run(Some(START), init);
      if st.Some? {
        WaitsAfter(init);
        RunOne(st.value, '\\');
      }
    }
  }

  function Times(c: Letter, n: nat): (r: seq<Letter>)
    ensures |r| == n
  {
    if n == 0 then [] else [c] + Times(c, n - 1)
  }

  lemma {:induction false} TimesLast(c: Letter, n: nat)
    ensures Times(c, n) + [c] == Times(c, n + 1)
  {
    if n > 0 {
      TimesLast(c, n - 1);
      assert Times(c, n) + [c] == [c] + (Times(c, n - 1) + [c]);
    }
  }

  lemma {:induction false} ManyInFront(exp: seq<Letter>, k: nat)
    ensures Parse(Times('(', k) + exp) == Parse(exp)
  {
    if k == 0 {
      assert Times('(', k) + exp == exp;
    } else {
      ManyInFront(exp, k - 1);
      assert Times('(', k) + exp == ['('] + (Times('(', k - 1) + exp);
      OpenInFront(Times('(', k - 1) + exp);
    }
  }

  lemma {:induction false} ManyBehind(exp: seq<Letter>, m: nat)
    requires !Dangling(exp)
    ensures Parse(exp + Times(')', m)) == Parse(exp) && !Dangling(exp + Times(')', m))
  {
    if m == 0 {
      assert exp + Times(')', m) == exp;
    } else {
      ManyBehind(exp, m - 1);
      var init := exp + Times(')', m - 1);
      TimesLast(')', m - 1);
      assert exp + Times(')', m) == init + [')'];
      CloseBehind(init);
      assert (init + [')'])[|init|] == ')';
    }
  }

  // ---- where the parser stands inside a pattern -----------------------------------------------------

  /** The alternatives of a group before the one being read, in order. */
  datatype Alts = NoAlts | Alts(before: Alts, alt: Factors)

  /** An unfinished pattern: open groups, each with its earlier alternatives and the factors read so far. */
  datatype Level = Level(outer: Outer, alts: Alts, cur: Option<Factors>)
  datatype Outer = Top | Inside(level: Level)

  function ReadAlts(alts: Alts): Option<Re> {
    match alts
    case NoAlts => None
    case Alts(b, a) => Some(Or(ReadAlts(b), ReadEarlier(a)))
  }

  function AltsText(alts: Alts): seq<Letter> {
    match alts
    case NoAlts => []
    case Alts(b, a) => AltsText(b) + PrintFactors(a) + "|"
  }

  function CurText(cur: Option<Factors>): seq<Letter> {
    match cur
    case None => []
    case Some(s) => PrintFactors(s)
  }

  function LevelText(l: Level): seq<Letter> {
    OuterText(l.outer) + AltsText(l.alts) + CurText(l.cur)
  }

  function OuterText(o: Outer): seq<Letter> {
    match o
    case Top => []
    case Inside(l) => LevelText(l) + "("
  }

  /** The parser's stacks below the group of a level. */
  function BaseOps(o: Outer): Stack<char> {
    match o
    case Top => Nil
    case Inside(l) => Push(if l.cur.None? then Standing(l).ops else Joined(l).ops, '(')
  }

  function BaseTrees(o: Outer): Stack<Re> {
    match o
    case Top => Nil
    case Inside(l) => if l.cur.None? then Standing(l).trees else Joined(l).trees
  }

  /** The parser at a level. */
  function Standing(l: Level): PState {
    match l.cur
    case None => Before(BaseOps(l.outer), BaseTrees(l.outer), ReadAlts(l.alts))
    case Some(s) => After(BaseOps(l.outer), BaseTrees(l.outer), ReadAlts(l.alts), s)
  }

  /** The parser at a level after a factor, with the concatenation for the next one pending. */
  function Joined(l: Level): PState
    requires l.cur.Some?
  {
    PState(Push(Bar(BaseOps(l.outer), ReadAlts(l.alts)), '&'),
           Push(Under(BaseTrees(l.outer), ReadAlts(l.alts)), ReadFactors(l.cur.value)), true, false)
  }

  lemma BaseIsGroup(o: Outer)
    ensures GroupBase(BaseOps(o))
  {
  }

  function Appended(cur: Option<Factors>, f: Factor): Factors {
    match cur
    case None => One(f)
    case Some(s) => Then(s, f)
  }

  lemma JoinsLevel(l: Level)
    requires l.cur.Some?
    ensures Join(Standing(l)) == Some(Joined(l))
  {
    BaseIsGroup(l.outer);
    JoinsFactor(BaseOps(l.outer), BaseTrees(l.outer), ReadAlts(l.alts), l.cur.value, Atom('a', Plain));
  }

  /** One more factor. */
  lemma FactorText(l: Level, f: Factor)
    ensures LevelText(l.(cur := Some(Appended(l.cur, f)))) == LevelText(l) + PrintFactor(f)
  {
    var l' := l.(cur := Some(Appended(l.cur, f)));
    assert CurText(l'.cur) == CurText(l.cur) + PrintFactor(f);
    hide OuterText, AltsText, CurText, PrintFactor;
    Assoc(OuterText(l.outer) + AltsText(l.alts), CurText(l.cur), PrintFactor(f));
  }

  lemma PutsFactor(l: Level, f: Factor)
    ensures PutTree(Standing(l), ReadFactor(f)) == Some(Standing(l.(cur := Some(Appended(l.cur, f)))))
  {
    if l.cur.Some? {
      BaseIsGroup(l.outer);
      JoinsFactor(BaseOps(l.outer), BaseTrees(l.outer), ReadAlts(l.alts), l.cur.value, f);
    }
  }

  // ---- too few operands -----------------------------------------------------------------------------

  function Height(trees: Stack<Re>): nat {
    match trees
    case Nil => 0
    case Push(r, _) => 1 + Height(r)
  }

  /** Operators that take two operands. */
  function Binary(ops: Stack<char>): nat {
    match ops
    case Nil => 0
    case Push(r, top) => Binary(r) + (if top == '&' || top == '|' then 1 else 0)
  }

  /** How many operands are left when all operators have theirs. */
  function Balance(st: PState): int {
    Height(st.trees) - Binary(st.ops)
  }

  /** More operators wait than there are operands for them. */
  predicate Doomed(st: PState) {
    Balance(st) < if st.cat then 1 else 0
  }

  predicate Known(ops: Stack<char>) {
    match ops
    case Nil => true
    case Push(r, top) => (top == '(' || top == '&' || top == '|') && Known(r)
  }

  lemma {:induction false} ReduceKeeps(op: char, ops: Stack<char>, trees: Stack<Re>)
    requires (op == '&' || op == '|') && Known(ops) && Reduce(op, ops, trees).Some?
    ensures var p := Reduce(op, ops, trees).value;
      Known(p.0) && Height(p.1) - Binary(p.0) == Height(trees) - Binary(ops)
    decreases ops
  {
    match ops
    case Nil =>
    case Push(rest, top) =>
      if Priority(top) >= Priority(op) {
        ReduceKeeps(op, rest, ApplyOp(op, trees).value);
      }
  }

  lemma {:induction false} CloseKeeps(ops: Stack<char>, trees: Stack<Re>)
    requires Known(ops) && CloseParen(ops, trees).Some?
    ensures var p := CloseParen(ops, trees).value;
      Known(p.0) && Height(p.1) - Binary(p.0) == Height(trees) - Binary(ops)
    decreases ops
  {
    match ops
    case Nil =>
    case Push(rest, top) =>
      if top != '(' {
        CloseKeeps(rest, ApplyOp(top, trees).value);
      }
  }

  lemma {:induction false} FinishKeeps(ops: Stack<char>, trees: Stack<Re>)
    requires Known(ops) && Finish(ops, trees).Some?
    ensures Height(Finish(ops, trees).value) == Height(trees) - Binary(ops)
    decreases ops
  {
    match ops
    case Nil =>
    case Push(rest, top) => FinishKeeps(rest, ApplyOp(top, trees).value);
  }

  lemma JoinBalance(st: PState)
    requires Known(st.ops) && Join(st).Some?
    ensures var s := Join(st).value;
      Known(s.ops) && Balance(s) == Balance(st) - (if st.cat then 1 else 0) && s.cat == st.cat
  {
    hide Reduce;
    if st.cat {
      ReduceKeeps('&', st.ops, st.trees);
    }
  }

  lemma PutBalance(st: PState, t: Re)
    requires Known(st.ops) && PutTree(st, t).Some?
    ensures var s := PutTree(st, t).value;
      Known(s.ops) && Balance(s) == Balance(st) + (if st.cat then 0 else 1) && s.cat
  {
    JoinBalance(st);
    hide Join;
  }

  lemma OperatorBalance(st: PState, c: Letter)
    requires (c == '(' || c == '*' || c == '|' || c == ')') && Known(st.ops) && Operator(st, c).Some?
    ensures var s := Operator(st, c).value;
      Known(s.ops) && Balance(s) == Balance(st) - (if c == '|' then 1 else 0) && (s.cat <==> c == '*' || c == ')')
  {
    hide Reduce, CloseParen;
    if c == '|' {
      ReduceKeeps('|', st.ops, st.trees);
    } else if c == ')' {
      CloseKeeps(st.ops, st.trees);
    }
  }

  /** A pattern that lacks an operand never gets it back. */
  lemma DoomedStays(st: PState, c: Letter)
    requires Known(st.ops) && Doomed(st) && Step(st, c).Some?
    ensures Known(Step(st, c).value.ops) && Doomed(Step(st, c).value)
  {
    hide Join, PutTree, Operator, Balance;
    if st.escape {
      PutBalance(st.(escape := false), Chr(Unescape(c)));
      SameBalance(st, st.(escape := false));
    } else if c == '\\' {
      SameBalance(st, st.(escape := true));
    } else if c == '(' {
      JoinBalance(st);
      OperatorBalance(Join(st).value, c);
    } else if c == '*' || c == '|' || c == ')' {
      OperatorBalance(st, c);
    } else {
      PutBalance(st, Chr(c));
    }
  }

  lemma SameBalance(a: PState, b: PState)
    requires a.ops == b.ops && a.trees == b.trees
    ensures Balance(a) == Balance(b)
  {
  }

  lemma BarBalance(ops: Stack<char>, trees: Stack<Re>, acc: Option<Re>)
    requires Known(ops) && Height(trees) == Binary(ops)
    ensures Known(Bar(ops, acc)) && Height(Under(trees, acc)) == Binary(Bar(ops, acc))
  {
  }

  /** At a level nothing is missing yet. */
  lemma {:induction false} StandingBalance(l: Level)
    ensures Known(Standing(l).ops) && Balance(Standing(l)) == if l.cur.Some? then 1 else 0
  {
    BaseBalance(l.outer);
    var ops, trees, acc := BaseOps(l.outer), BaseTrees(l.outer), ReadAlts(l.alts);
    BarBalance(ops, trees, acc);
    hide BaseOps, BaseTrees, ReadAlts, Bar, Under;
    match l.cur
    case None =>
    case Some(One(f)) =>
    case Some(Then(init, f)) =>
      assert Height(Standing(l).trees) == Height(Push(Under(trees, acc), ReadFactors(init))) + 1;
  }

  lemma {:induction false} BaseBalance(o: Outer)
    ensures Known(BaseOps(o)) && Height(BaseTrees(o)) == Binary(BaseOps(o))
    decreases o
  {
    match o
    case Top =>
    case Inside(l) =>
      BaseBalance(l.outer);
      BarBalance(BaseOps(l.outer), BaseTrees(l.outer), ReadAlts(l.alts));
      if l.cur.Some? {
        assert Known(Joined(l).ops) && Height(Joined(l).trees) == Binary(Joined(l).ops);
      } else {
        assert Known(Standing(l).ops) && Height(Standing(l).trees) == Binary(Standing(l).ops);
      }
  }

  // ---- one more character ---------------------------------------------------------------------------

  function GroupFrom(alts: Alts, rest: Group): Group {
    match alts
    case NoAlts => rest
    case Alts(b, a) => GroupFrom(b, More(a, rest))
  }

  lemma {:induction false} GroupText(alts: Alts, rest: Group)
    ensures PrintGroup(GroupFrom(alts, rest)) == AltsText(alts) + PrintGroup(rest)
    decreases alts
  {
    match alts
    case NoAlts => assert AltsText(alts) + PrintGroup(rest) == PrintGroup(rest);
    case Alts(b, a) =>
      GroupText(b, More(a, rest));
      assert AltsText(b) + (PrintFactors(a) + "|" + PrintGroup(rest)) == AltsText(alts) + PrintGroup(rest);
  }

  lemma {:induction false} GroupEnded(st: PState, ops: Stack<char>, trees: Stack<Re>, alts: Alts, rest: Group)
    requires Ended(st, ops, trees, ReadAlts(alts), rest)
    ensures Ended(st, ops, trees, None, GroupFrom(alts, rest))
    decreases alts
  {
    match alts
    case NoAlts =>
    case Alts(b, a) => GroupEnded(st, ops, trees, b, More(a, rest));
  }

  /** The group of a level, closed where it stands. */
  function Closed(l: Level): Group
    requires l.cur.Some?
  {
    GroupFrom(l.alts, Last(l.cur.value))
  }

  lemma {:induction false} CloseTop(st: PState, acc: Option<Re>, g: Group)
    requires Ended(st, Nil, Nil, acc, g)
    ensures CloseParen(st.ops, st.trees) == Some((Nil, Push(Nil, ReadGroup(acc, g))))
    decreases g
  {
    match g
    case Last(a) =>
      assert CloseParen(Bar(Nil, acc), Push(Under(Nil, acc), ReadFactors(a))) ==
        Some((Nil, Push(Nil, ReadGroup(acc, g))));
    case More(a, r) =>
      CloseTop(st, Some(Or(acc, ReadEarlier(a))), r);
  }

  /** The level after a closing parenthesis; outside all groups the whole pattern becomes one. */
  function AfterClose(l: Level): Level
    requires l.cur.Some?
  {
    match l.outer
    case Top => Level(Top, NoAlts, Some(One(Paren(Closed(l)))))
    case Inside(l0) => l0.(cur := Some(Appended(l0.cur, Paren(Closed(l)))))
  }

  lemma ClosesLevel(l: Level)
    requires l.cur.Some?
    ensures Operator(Standing(l), ')') == Some(Standing(AfterClose(l)))
  {
    var st, g, ops, trees := Standing(l), Closed(l), BaseOps(l.outer), BaseTrees(l.outer);
    GroupEnded(st, ops, trees, l.alts, Last(l.cur.value));
    match l.outer
    case Top => CloseTop(st, None, g);
    case Inside(l0) =>
      CloseGroup(st, ops, trees, None, g);
      hide CloseParen, GroupFrom, ReadGroup;
      PutsFactor(l0, Paren(g));
      if l0.cur.Some? {
        JoinsLevel(l0);
      }
  }

  lemma ClosedText(l: Level)
    requires l.cur.Some?
    ensures PrintFactor(Paren(Closed(l))) == "(" + (AltsText(l.alts) + CurText(l.cur)) + ")"
  {
    GroupText(l.alts, Last(l.cur.value));
    assert PrintFactor(Paren(Closed(l))) == "(" + PrintGroup(Closed(l)) + ")";
    hide GroupFrom, AltsText, PrintGroup;
  }

  lemma CloseText(l: Level)
    requires l.cur.Some?
    ensures LevelText(AfterClose(l)) == (if l.outer.Top? then ['('] else []) + LevelText(l) + [')']
  {
    ClosedText(l);
    var g, w := Closed(l), AltsText(l.alts) + CurText(l.cur);
    hide Closed, AltsText, CurText, LevelText, PrintFactor, Appended;
    match l.outer
    case Top =>
      hide AfterClose;
      TopText(l, w);
    case Inside(l0) =>
      FactorText(l0, Paren(g));
      InsideText(l, l0, w);
      assert [] + LevelText(l) == LevelText(l);
      assert AfterClose(l) == l0.(cur := Some(Appended(l0.cur, Paren(g))));
  }

  lemma TopText(l: Level, w: seq<Letter>)
    requires l.cur.Some? && l.outer.Top? && w == AltsText(l.alts) + CurText(l.cur)
    requires PrintFactor(Paren(Closed(l))) == "(" + w + ")"
    ensures LevelText(AfterClose(l)) == ['('] + LevelText(l) + [')']
  {
    hide GroupFrom;
    var l' := AfterClose(l);
    assert OuterText(l.outer) == OuterText(l'.outer) == [] && AltsText(l'.alts) == [];
    assert LevelText(l') == "(" + w + ")";
    assert LevelText(l) == w;
  }

  lemma InsideText(l: Level, l0: Level, w: seq<Letter>)
    requires l.outer == Inside(l0) && w == AltsText(l.alts) + CurText(l.cur)
    ensures LevelText(l0) + ("(" + w + ")") == LevelText(l) + [')']
  {
    assert OuterText(l.outer) == LevelText(l0) + "(";
    hide LevelText, OuterText, AltsText, CurText;
    assert LevelText(l) == LevelText(l0) + "(" + AltsText(l.alts) + CurText(l.cur) by {
      LevelIs(l);
    }
  }

  lemma LevelIs(l: Level)
    ensures LevelText(l) == OuterText(l.outer) + AltsText(l.alts) + CurText(l.cur)
  {
  }

  function StarLast(s: Factors): Factors {
    match s
    case One(f) => One(Starred(f))
    case Then(init, f) => Then(init, Starred(f))
  }

  lemma StarText(s: Factors)
    ensures PrintFactors(StarLast(s)) == PrintFactors(s) + ['*']
  {
    match s
    case One(f) =>
    case Then(init, f) => Assoc(PrintFactors(init), PrintFactor(f), ['*']);
  }

  lemma StarsLevel(l: Level)
    requires l.cur.Some?
    ensures var l' := l.(cur := Some(StarLast(l.cur.value)));
      Operator(Standing(l), '*') == Some(Standing(l')) && LevelText(l') == LevelText(l) + ['*']
  {
    var l' := l.(cur := Some(StarLast(l.cur.value)));
    StarText(l.cur.value);
    Assoc(OuterText(l.outer) + AltsText(l.alts), CurText(l.cur), ['*']);
  }

  lemma BarsLevel(l: Level)
    requires l.cur.Some?
    ensures var l' := Level(l.outer, Alts(l.alts, l.cur.value), None);
      Operator(Standing(l), '|') == Some(Standing(l')) && LevelText(l') == LevelText(l) + ['|']
  {
    var l' := Level(l.outer, Alts(l.alts, l.cur.value), None);
    BaseIsGroup(l.outer);
    BarReduces(BaseOps(l.outer), BaseTrees(l.outer), ReadAlts(l.alts), l.cur.value);
    assert LevelText(l') == LevelText(l) + ['|'];
  }

  lemma OpensLevel(l: Level)
    ensures var l' := Level(Inside(l), NoAlts, None);
      Step(Standing(l), '(') == Some(Standing(l')) && LevelText(l') == LevelText(l) + ['(']
  {
    var l' := Level(Inside(l), NoAlts, None);
    if l.cur.Some? {
      JoinsLevel(l);
    }
    assert LevelText(l') == LevelText(l) + "(" + [] + [];
  }

  /** The parser has read exp and stands at level l, with k parentheses thought in front. */
  ghost predicate ReadTo(exp: seq<Letter>, st: PState, l: Level, k: nat) {
    && st == Standing(l).(escape := st.escape)
    && (if st.escape then exp != [] && exp[|exp| - 1] == '\\' && Times('(', k) + exp[..|exp| - 1] == LevelText(l)
        else Times('(', k) + exp == LevelText(l))
  }

  /** How a character that was read plain or behind a backslash is written. */
  function Written(c: Letter, escaped: bool): Factor {
    if !escaped then Atom(c, Plain) else if Coded(c) then Atom(Unescape(c), AsLetter) else Atom(c, Escaped)
  }

  lemma WrittenText(c: Letter, escaped: bool)
    requires escaped || !Special(c)
    ensures PrintFactor(Written(c, escaped)) == (if escaped then ['\\'] else []) + [c]
    ensures ReadFactor(Written(c, escaped)) == Chr(if escaped then Unescape(c) else c)
  {
  }

  lemma StepsAtom(st: PState, c: Letter)
    requires st.escape || !Special(c)
    ensures Step(st, c) == PutTree(st.(escape := false), Chr(if st.escape then Unescape(c) else c))
  {
    hide PutTree, Join, Operator;
  }

  lemma ReadsAtom(exp: seq<Letter>, st: PState, l: Level, k: nat, c: Letter) returns (l': Level)
    requires ReadTo(exp, st, l, k) && (st.escape || !Special(c))
    ensures Step(st, c).Some? && ReadTo(exp + [c], Step(st, c).value, l', k)
  {
    var f := Written(c, st.escape);
    l' := l.(cur := Some(Appended(l.cur, f)));
    hide Step, PutTree, LevelText, Standing, Appended, PrintFactor, ReadFactor, Written, Unescape, Special;
    StepsAtom(st, c);
    WrittenText(c, st.escape);
    PutsFactor(l, f);
    FactorText(l, f);
    StandsPlain(l);
    StandsPlain(l');
    assert st.(escape := false) == Standing(l);
    if st.escape {
      var init := exp[..|exp| - 1];
      assert exp + [c] == init + ['\\', c];
      assert Times('(', k) + (exp + [c]) == Times('(', k) + init + ['\\', c];
    } else {
      assert Times('(', k) + (exp + [c]) == Times('(', k) + exp + [c];
    }
  }

  lemma StandsPlain(l: Level)
    ensures !Standing(l).escape && (Standing(l).cat <==> l.cur.Some?)
  {
  }

  lemma ReadsOperator(exp: seq<Letter>, st: PState, l: Level, k: nat, c: Letter) returns (l': Level, k': nat)
    requires ReadTo(exp, st, l, k) && !st.escape && l.cur.Some? && (c == '*' || c == '|' || c == ')')
    ensures Step(st, c).Some? && ReadTo(exp + [c], Step(st, c).value, l', k')
  {
    k' := k;
    assert Step(st, c) == Operator(st, c);
    hide Standing, LevelText, Step, Operator, AfterClose, StarLast;
    StandsPlain(l);
    assert st == Standing(l);
    Assoc(Times('(', k), exp, [c]);
    if c == '*' {
      l' := l.(cur := Some(StarLast(l.cur.value)));
      StarsLevel(l);
    } else if c == '|' {
      l' := Level(l.outer, Alts(l.alts, l.cur.value), None);
      BarsLevel(l);
    } else {
      l' := AfterClose(l);
      ClosesLevel(l);
      CloseText(l);
      if l.outer.Top? {
        k' := k + 1;
        assert Times('(', k') + (exp + [c]) == ['('] + (Times('(', k) + exp) + [c];
      }
    }
    StandsPlain(l');
  }

  lemma ReadsBackslash(exp: seq<Letter>, st: PState, l: Level, k: nat)
    requires ReadTo(exp, st, l, k) && !st.escape
    ensures Step(st, '\\').Some? && ReadTo(exp + ['\\'], Step(st, '\\').value, l, k)
  {
    assert Step(st, '\\') == Some(st.(escape := true));
    hide Standing, LevelText, Step;
    assert (exp + ['\\'])[..|exp|] == exp;
  }

  lemma ReadsOpen(exp: seq<Letter>, st: PState, l: Level, k: nat) returns (l': Level)
    requires ReadTo(exp, st, l, k) && !st.escape
    ensures Step(st, '(').Some? && ReadTo(exp + ['('], Step(st, '(').value, l', k)
  {
    l' := Level(Inside(l), NoAlts, None);
    hide Standing, LevelText, Step;
    StandsPlain(l);
    StandsPlain(l');
    assert st == Standing(l);
    OpensLevel(l);
    Assoc(Times('(', k), exp, ['(']);
  }

  lemma ReadToKnown(exp: seq<Letter>, st: PState, l: Level, k: nat)
    requires ReadTo(exp, st, l, k)
    ensures Known(st.ops)
  {
    StandingBalance(l);
    hide Standing, LevelText;
  }

  lemma ReadsTooEarly(exp: seq<Letter>, st: PState, l: Level, k: nat, c: Letter)
    requires ReadTo(exp, st, l, k) && !st.escape && l.cur.None? && (c == '*' || c == '|' || c == ')')
    requires Step(st, c).Some?
    ensures Known(Step(st, c).value.ops) && Doomed(Step(st, c).value)
  {
    StandingBalance(l);
    SameBalance(st, Standing(l));
    assert Operator(st, c) == Step(st, c);
    hide Standing, LevelText, Operator, Step, Balance;
    OperatorBalance(st, c);
  }

  /** Every character leads to the next level, or shows that an operand is missing. */
  lemma ReadsOne(exp: seq<Letter>, st: PState, l: Level, k: nat, c: Letter) returns (l': Level, k': nat)
    requires ReadTo(exp, st, l, k) && Step(st, c).Some?
    ensures Known(Step(st, c).value.ops)
    ensures Doomed(Step(st, c).value) || ReadTo(exp + [c], Step(st, c).value, l', k')
  {
    hide ReadTo, Step, Doomed;
    l', k' := l, k;
    if !st.escape && l.cur.None? && (c == '*' || c == '|' || c == ')') {
      ReadsTooEarly(exp, st, l, k, c);
    } else {
      if st.escape || !Special(c) {
        l' := ReadsAtom(exp, st, l, k, c);
      } else if c == '\\' {
        ReadsBackslash(exp, st, l, k);
      } else if c == '(' {
        l' := ReadsOpen(exp, st, l, k);
      } else {
        l', k' := ReadsOperator(exp, st, l, k, c);
      }
      ReadToKnown(exp + [c], Step(st, c).value, l', k');
    }
  }

  lemma {:induction false} ReadsAll(exp: seq<Letter>) returns (l: Level, k: nat)
    requires Run(Some(START), exp).Some?
    ensures var st := Run(Some(START), exp).value; Known(st.ops) && (Doomed(st) || ReadTo(exp, st, l, k))
    decreases |exp|
  {
    if exp == [] {
      l, k := Level(Top, NoAlts, None), 0;
      assert LevelText(l) == [];
    } else {
      var init, c := exp[..|exp| - 1], exp[|exp| - 1];
      assert exp == init + [c];
      RunCat(Some(START), init, [c]);
      l, k := ReadsAll(init);
      var st := Run(Some(START), init).value;
      RunOne(st, c);
      hide Step, ReadTo, Run;
      if Doomed(st) {
        DoomedStays(st, c);
      } else {
        l, k := ReadsOne(init, st, l, k, c);
      }
    }
  }

  // ---- the end of the pattern -------------------------------------------------------------------------

  lemma {:induction false} BottomHeight(trees: Stack<Re>)
    ensures Bottom(trees).Some? <==> Height(trees) >= 1
    decreases trees
  {
    match trees
    case Nil =>
    case Push(Nil, _) =>
    case Push(r, _) => BottomHeight(r);
  }

  lemma {:induction false} ClosesAll(l: Level) returns (g: Group, m: nat)
    requires l.cur.Some?
    ensures LevelText(l) + Times(')', m) == PrintGroup(g)
    decreases l.outer
  {
    match l.outer
    case Top =>
      g, m := Closed(l), 0;
      GroupText(l.alts, Last(l.cur.value));
      assert LevelText(l) + Times(')', m) == AltsText(l.alts) + PrintFactors(l.cur.value);
    case Inside(l0) =>
      CloseText(l);
      g, m := ClosesAll(AfterClose(l));
      assert LevelText(l) + Times(')', m + 1) == LevelText(l) + [')'] + Times(')', m);
      m := m + 1;
  }

  /** With k opening parentheses in front and m closing ones behind, exp is the text of a group. */
  ghost predicate Completes(exp: seq<Letter>, k: nat, m: nat, g: Group) {
    Times('(', k) + Trim(exp) + Times(')', m) == PrintGroup(g)
  }

  lemma CompletedParses(exp: seq<Letter>, k: nat, m: nat, g: Group)
    requires Completes(exp, k, m, g)
    ensures Parse(exp) == Some(ReadGroup(None, g))
  {
    hide Parse;
    var w := Trim(exp);
    BackslashBehind(exp);
    ManyBehind(w, m);
    ManyInFront(w + Times(')', m), k);
    Assoc(Times('(', k), w, Times(')', m));
    ParsePrinted(g);
  }

  lemma ParsedCompletes(exp: seq<Letter>) returns (k: nat, m: nat, g: Group)
    requires Parse(exp).Some?
    ensures Completes(exp, k, m, g)
  {
    var l: Level;
    l, k := ReadsAll(exp);
    var st := Run(Some(START), exp).value;
    FinishKeeps(st.ops, st.trees);
    BottomHeight(Finish(st.ops, st.trees).value);
    WaitsAfter(exp);
    hide Run, Finish, Bottom;
    StandingBalance(l);
    StandsPlain(l);
    assert l.cur.Some?;
    g, m := ClosesAll(l);
  }

  /**
   * Which patterns are read, and as what: exactly those that parentheses in front and behind, without a last backslash
   * that escapes nothing, turn into a printed group. On all others an operand is missing and the parser fails.
   */
  lemma ParseExactly(exp: seq<Letter>, t: Re)
    ensures Parse(exp) == Some(t) <==> exists k, m, g :: Completes(exp, k, m, g) && t == ReadGroup(None, g)
  {
    hide Parse, Completes;
    if Parse(exp) == Some(t) {
      var k, m, g := ParsedCompletes(exp);
      CompletedParses(exp, k, m, g);
    }
    if k, m, g :| Completes(exp, k, m, g) && t == ReadGroup(None, g) {
      CompletedParses(exp, k, m, g);
    }
  }
}
