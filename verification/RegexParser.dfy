/** The operator-precedence parser that builds automata on two stacks. */
module RegexParser {
  import opened Collections
  import opened RegexLanguage
  import opened RegexNfa
  import S = RegexSyntax

  ghost function OpsOf(ops: string): (r: S.Stack<char>) {
    if ops == [] then S.Nil else S.Push(OpsOf(ops[..|ops| - 1]), ops[|ops| - 1])
  }

  /** The trees that the automata on the stack denote. */
  ghost function TreesOf(stack: seq<NFA>): (r: S.Stack<Re>) {
    if stack == [] then S.Nil else S.Push(TreesOf(stack[..|stack| - 1]), stack[|stack| - 1].re)
  }

  ghost function StatesOf(stack: seq<NFA>): (r: set<NFAState>) {
    set i, n | 0 <= i < |stack| && n in stack[i].g :: n
  }

  /** The automata on the stack are well-formed and share no state. */
  ghost predicate Separate(stack: seq<NFA>)
    reads StatesOf(stack)
  {
    && (forall i :: 0 <= i < |stack| ==> stack[i].Valid())
    && (forall i, j :: 0 <= i < j < |stack| ==> stack[i].g.Keys !! stack[j].g.Keys)
  }

  lemma EndInside(a: NFA)
    requires a.Valid()
    ensures a.End in a.g
  {
    Ends(a.g, a.Start, a.End, a.re);
  }

  lemma TreesTop(stack: seq<NFA>, r: NFA)
    ensures TreesOf(stack + [r]) == S.Push(TreesOf(stack), r.re)
  {
    assert (stack + [r])[..|stack|] == stack;
  }

  lemma TopTwo(stack: seq<NFA>)
    requires |stack| >= 2
    ensures var n := |stack|;
      TreesOf(stack) == S.Push(S.Push(TreesOf(stack[..n - 2]), stack[n - 2].re), stack[n - 1].re)
  {
    var n := |stack|;
    assert stack[..n - 1][..n - 2] == stack[..n - 2];
  }

  lemma Joined(op: char, t: S.Stack<Re>, a: Re, b: Re)
    requires op == '&' || op == '|'
    ensures S.ApplyOp(op, S.Push(S.Push(t, a), b)) == Some(S.Push(t, if op == '&' then Cat(a, b) else Alt(a, b)))
  {
  }

  lemma OnlyNew<T>(s: set<T>, r: set<T>, a: set<T>, b: set<T>)
    ensures s + r - (s + a + b) <= r - (a + b)
  {
  }

  /** A new automaton in place of the two on top. */
  lemma OneForTwo(rest: seq<NFA>, r: NFA)
    requires r.Valid() && Separate(rest) && Apart(rest, r)
    ensures Separate(rest + [r]) && StatesOf(rest + [r]) == StatesOf(rest) + r.g.Keys
  {
    hide NFA.Valid;
    StatesTop(rest, r);
  }

  lemma StatesTop(rest: seq<NFA>, r: NFA)
    ensures StatesOf(rest + [r]) == StatesOf(rest) + r.g.Keys
  {
    var t := rest + [r];
    forall x | x in r.g.Keys ensures x in StatesOf(t) {
      assert x in t[|rest|].g;
    }
    forall x | x in StatesOf(rest) ensures x in StatesOf(t) {
      var i :| 0 <= i < |rest| && x in rest[i].g;
      assert x in t[i].g;
    }
  }

  /** The two on top and the ones below. */
  lemma StackStates(stack: seq<NFA>)
    requires |stack| >= 2 && Separate(stack)
    ensures var n := |stack|; var rest, a, b := stack[..n - 2], stack[n - 2], stack[n - 1];
      && a.Valid() && b.Valid() && a.g.Keys !! b.g.Keys && Separate(rest) && Apart(rest, a) && Apart(rest, b)
      && StatesOf(stack) == StatesOf(rest) + a.g.Keys + b.g.Keys
  {
    hide NFA.Valid;
    var n := |stack|;
    StatesTop(stack[..n - 2], stack[n - 2]);
    StatesTop(stack[..n - 1], stack[n - 1]);
    assert stack[..n - 1] == stack[..n - 2] + [stack[n - 2]] && stack == stack[..n - 1] + [stack[n - 1]];
  }

  lemma TreesHeight(stack: seq<NFA>)
    ensures TreesOf(stack) == S.Nil <==> |stack| == 0
    ensures |stack| == 1 ==> TreesOf(stack).below == S.Nil
    ensures |stack| >= 2 ==> TreesOf(stack).below != S.Nil
  {
  }

  ghost predicate Apart(rest: seq<NFA>, r: NFA) {
    forall i :: 0 <= i < |rest| ==> rest[i].g.Keys !! r.g.Keys
  }

  /** The automata in rest are left alone. */
  method Combine(op: char, a: NFA, b: NFA, ghost rest: seq<NFA>) returns (r: NFA)
    requires a.Valid() && b.Valid() && a.g.Keys !! b.g.Keys
    requires Separate(rest) && Apart(rest, a) && Apart(rest, b)
    modifies a.End, b.End
    ensures r.Valid() && fresh(r.g.Keys - (a.g.Keys + b.g.Keys))
    ensures r.re == if op == '&' then Cat(a.re, b.re) else Alt(a.re, b.re)
    ensures Separate(rest) && Apart(rest, r)
  {
    hide NFA.Valid;
    EndInside(a);
    EndInside(b);
    if op == '&' {
      r := NfaCat(a, b);
    } else {
      r := NfaOr(a, b);
    }
  }

  class Parser {
    var opstack: string
    var nfastack: seq<NFA>

    constructor ()
      ensures opstack == [] && nfastack == []
    {
      opstack, nfastack := [], [];
    }

    ghost predicate Valid()
      reads this, StatesOf(nfastack)
    {
      Separate(nfastack)
    }

    ghost function Trees(): (r: S.Stack<Re>)
      reads this`nfastack
    {
      TreesOf(nfastack)
    }

    ghost function Ops(): (r: S.Stack<char>)
      reads this`opstack
    {
      OpsOf(opstack)
    }

    method StarTop()
      requires Valid() && |nfastack| >= 1
      modifies this`nfastack, StatesOf(nfastack)
      ensures Valid() && fresh(StatesOf(nfastack) - old(StatesOf(nfastack)))
      ensures Some(Trees()) == S.ApplyOp('*', old(Trees()))
    {
      hide NFA.Valid;
      var n := |nfastack|;
      EndInside(nfastack[n - 1]);
      var r := NfaStar(nfastack[n - 1]);
      TreesTop(nfastack[..n - 1], r);
      nfastack := nfastack[..n - 1] + [r];
    }

    method JoinTop(op: char)
      requires Valid() && |nfastack| >= 2 && (op == '&' || op == '|')
      modifies this`nfastack, StatesOf(nfastack)
      ensures Valid() && fresh(StatesOf(nfastack) - old(StatesOf(nfastack)))
      ensures Some(Trees()) == S.ApplyOp(op, old(Trees()))
    {
      hide NFA.Valid, TreesOf, Separate, StatesOf, S.ApplyOp, Apart;
      var n := |nfastack|;
      var a, b := nfastack[n - 2], nfastack[n - 1];
      ghost var rest := nfastack[..n - 2];
      TopTwo(nfastack);
      StackStates(nfastack);
      EndInside(a);
      EndInside(b);
      Joined(op, TreesOf(rest), a.re, b.re);
      var r := Combine(op, a, b, rest);
      TreesTop(rest, r);
      OneForTwo(rest, r);
      OnlyNew(StatesOf(rest), r.g.Keys, a.g.Keys, b.g.Keys);
      nfastack := nfastack[..n - 2] + [r];
    }

    method ApplyOp(op: char) returns (ok: bool)
      requires Valid()
      modifies this`nfastack, StatesOf(nfastack)
      ensures Valid() && fresh(StatesOf(nfastack) - old(StatesOf(nfastack)))
      ensures ok == S.ApplyOp(op, old(Trees())).Some?
      ensures ok ==> Some(Trees()) == S.ApplyOp(op, old(Trees()))
    {
      ok := true;
      TreesHeight(nfastack);
      if op == '*' {
        if |nfastack| < 1 { return false; }
        StarTop();
      } else if op == '&' || op == '|' {
        if |nfastack| < 2 { return false; }
        JoinTop(op);
      }
    }

    method PopOp() returns (top: char)
      requires opstack != []
      modifies this`opstack
      ensures old(Ops()) == S.Push(Ops(), top) && |opstack| == old(|opstack|) - 1
    {
      top := opstack[|opstack| - 1];
      opstack := opstack[..|opstack| - 1];
    }

    method PushOp(op: char)
      modifies this`opstack
      ensures Ops() == S.Push(old(Ops()), op)
    {
      opstack := opstack + [op];
    }

    method CloseParen() returns (ok: bool)
      requires Valid()
      modifies this, StatesOf(nfastack)
      ensures Valid() && fresh(StatesOf(nfastack) - old(StatesOf(nfastack)))
      ensures ok == S.CloseParen(old(Ops()), old(Trees())).Some?
      ensures ok ==> Some((Ops(), Trees())) == S.CloseParen(old(Ops()), old(Trees()))
    {
      hide Separate, S.ApplyOp;
      ghost var goal := S.CloseParen(Ops(), Trees());
      while |opstack| > 0
        invariant Valid() && fresh(StatesOf(nfastack) - old(StatesOf(nfastack)))
        invariant S.CloseParen(Ops(), Trees()) == goal
        decreases |opstack|
      {
        var top := PopOp();
        if top == '(' { return true; }
        ok := ApplyOp(top);
        if !ok { return; }
      }
      return true;
    }

    method Reduce(op: char) returns (ok: bool)
      requires Valid()
      modifies this, StatesOf(nfastack)
      ensures Valid() && fresh(StatesOf(nfastack) - old(StatesOf(nfastack)))
      ensures ok == S.Reduce(op, old(Ops()), old(Trees())).Some?
      ensures ok ==> Some((Ops(), Trees())) == S.Reduce(op, old(Ops()), old(Trees()))
    {
      hide Separate, S.ApplyOp;
      ghost var goal := S.Reduce(op, Ops(), Trees());
      while |opstack| > 0
        invariant Valid() && fresh(StatesOf(nfastack) - old(StatesOf(nfastack)))
        invariant S.Reduce(op, Ops(), Trees()) == goal
        decreases |opstack|
      {
        var top := opstack[|opstack| - 1];
        if S.Priority(top) < S.Priority(op) { return true; }
        opstack := opstack[..|opstack| - 1];
        ok := ApplyOp(op);
        if !ok { return; }
      }
      return true;
    }

    method AddOp(op: char) returns (ok: bool)
      requires Valid()
      modifies this, StatesOf(nfastack)
      ensures Valid() && fresh(StatesOf(nfastack) - old(StatesOf(nfastack)))
      ensures ok == S.AddOp(op, old(Ops()), old(Trees())).Some?
      ensures ok ==> Some((Ops(), Trees())) == S.AddOp(op, old(Ops()), old(Trees()))
    {
      hide Separate, S.ApplyOp, S.CloseParen, S.Reduce;
      if op == '*' {
        ok := ApplyOp('*');
      } else if op == ')' {
        ok := CloseParen();
      } else if op == '(' {
        PushOp(op);
        ok := true;
      } else {
        ok := Reduce(op);
        if ok { PushOp(op); }
      }
    }

    ghost function State(cat: bool, escape: bool): (st: S.PState)
      reads this
    {
      S.PState(Ops(), Trees(), cat, escape)
    }

    /** An operand after a complete one is concatenated to it. */
    method Join(cat: bool) returns (ok: bool)
      requires Valid()
      modifies this, StatesOf(nfastack)
      ensures Valid() && fresh(StatesOf(nfastack) - old(StatesOf(nfastack)))
      ensures ok == S.Join(old(State(cat, false))).Some?
      ensures ok ==> Some(State(cat, false)) == S.Join(old(State(cat, false)))
    {
      hide Separate, S.AddOp;
      ok := true;
      if cat {
        ok := AddOp('&');
      }
    }

    method PutChar(cat: bool, c: Letter) returns (ok: bool)
      requires Valid()
      modifies this, StatesOf(nfastack)
      ensures Valid() && fresh(StatesOf(nfastack) - old(StatesOf(nfastack)))
      ensures ok == S.PutTree(old(State(cat, false)), Chr(c)).Some?
      ensures ok ==> Some(State(true, false)) == S.PutTree(old(State(cat, false)), Chr(c))
    {
      hide NFA.Valid, S.Join;
      ok := Join(cat);
      if ok {
        var r := NfaChar(c);
        TreesTop(nfastack, r);
        nfastack := nfastack + [r];
      }
    }

    method Operator(c: char, ghost cat: bool) returns (ok: bool)
      requires Valid()
      modifies this, StatesOf(nfastack)
      ensures Valid() && fresh(StatesOf(nfastack) - old(StatesOf(nfastack)))
      ensures ok == S.Operator(old(State(cat, false)), c).Some?
      ensures ok ==> Some(State(c != '|' && c != '(', false)) == S.Operator(old(State(cat, false)), c)
    {
      hide Separate, S.AddOp;
      ok := AddOp(c);
    }

    /** One turn of the loop over the pattern. */
    method Step(c: Letter, cat: bool, escape: bool) returns (ok: bool, cat': bool, escape': bool)
      requires Valid()
      modifies this, StatesOf(nfastack)
      ensures Valid() && fresh(StatesOf(nfastack) - old(StatesOf(nfastack)))
      ensures ok == S.Step(old(State(cat, escape)), c).Some?
      ensures ok ==> Some(State(cat', escape')) == S.Step(old(State(cat, escape)), c)
    {
      hide Separate, S.Operator, S.Join, S.PutTree;
      cat', escape' := cat, false;
      if escape {
        ok := PutChar(cat, S.Unescape(c));
        cat' := true;
      } else if c == '\\' {
        ok, escape' := true, true;
      } else if c == '(' {
        ok := Join(cat);
        if ok { ok := Operator(c, cat); }
        cat' := false;
      } else if c == '*' || c == '|' || c == ')' {
        ok := Operator(c, cat);
        cat' := c != '|' && c != '(';
      } else {
        ok := PutChar(cat, c);
        cat' := true;
      }
    }

    method Finish() returns (ok: bool)
      requires Valid()
      modifies this, StatesOf(nfastack)
      ensures Valid() && fresh(StatesOf(nfastack) - old(StatesOf(nfastack)))
      ensures ok == S.Finish(old(Ops()), old(Trees())).Some?
      ensures ok ==> Some(Trees()) == S.Finish(old(Ops()), old(Trees()))
    {
      hide Separate, S.ApplyOp;
      ghost var goal := S.Finish(Ops(), Trees());
      while |opstack| > 0
        invariant Valid() && fresh(StatesOf(nfastack) - old(StatesOf(nfastack)))
        invariant S.Finish(Ops(), Trees()) == goal
        decreases |opstack|
      {
        var top := PopOp();
        ok := ApplyOp(top);
        if !ok { return; }
      }
      ok := true;
    }
  }

  lemma {:induction false} BottomTree(stack: seq<NFA>)
    requires stack != []
    ensures S.Bottom(TreesOf(stack)) == Some(stack[0].re)
    decreases |stack|
  {
    if |stack| > 1 {
      BottomTree(stack[..|stack| - 1]);
    }
  }

  lemma SeparateFirst(stack: seq<NFA>)
    requires Separate(stack) && stack != []
    ensures stack[0].Valid() && stack[0].g.Keys <= StatesOf(stack)
  {
    hide NFA.Valid;
  }

  /** One more character of the pattern, or none left. */
  lemma RunFirst(st: S.PState, exp: seq<Letter>, i: nat)
    requires i <= |exp|
    ensures i < |exp| ==> S.Run(Some(st), exp[i..]) == S.Run(S.Step(st, exp[i]), exp[i + 1..])
    ensures i < |exp| && S.Step(st, exp[i]) == None ==> S.Run(Some(st), exp[i..]) == None
    ensures i == |exp| ==> S.Run(Some(st), exp[i..]) == Some(st)
  {
    hide S.Step;
    if i < |exp| {
      assert exp[i..][0] == exp[i] && exp[i..][1..] == exp[i + 1..];
    }
  }

  /** The loop over the pattern. */
  method Scan(p: Parser, exp: seq<Letter>) returns (ok: bool)
    requires p.opstack == [] && p.nfastack == []
    modifies p
    ensures p.Valid() && fresh(StatesOf(p.nfastack))
    ensures ok == S.Run(Some(S.START), exp).Some?
    ensures ok ==> var st := S.Run(Some(S.START), exp).value; st.ops == p.Ops() && st.trees == p.Trees()
  {
    var cat, escape := false, false;
    assert exp[0..] == exp && p.Valid() && StatesOf(p.nfastack) == {};
    hide Separate, S.Step, S.Run;
    ghost var goal := S.Run(Some(S.START), exp);
    for i := 0 to |exp|
      invariant p.Valid() && fresh(StatesOf(p.nfastack))
      invariant S.Run(Some(p.State(cat, escape)), exp[i..]) == goal
    {
      RunFirst(p.State(cat, escape), exp, i);
      ok, cat, escape := p.Step(exp[i], cat, escape);
      if !ok { return; }
    }
    RunFirst(p.State(cat, escape), exp, |exp|);
    ok := true;
  }

  /** None stands for a panic on a pattern that lacks an operand. */
  method REtoNFA(exp: seq<Letter>) returns (r: Option<NFA>)
    ensures r.Some? == S.Parse(exp).Some?
    ensures r.Some? ==> r.value.Valid() && r.value.re == S.Parse(exp).value && fresh(r.value.g.Keys)
  {
    hide Separate, S.Run, S.Finish, S.Bottom, NFA.Valid;
    var p := new Parser();
    var ok := Scan(p, exp);
    if !ok { return None; }
    ok := p.Finish();
    if !ok { return None; }
    if |p.nfastack| == 0 {
      NoTrees();
      return None;
    }
    BottomTree(p.nfastack);
    SeparateFirst(p.nfastack);
    r := Some(p.nfastack[0]);
  }

  lemma NoTrees()
    ensures S.Bottom(TreesOf([])) == None
  {
  }
}
