/** Where interference fails: runs with small even numbers of replicas, and one with a read and a store apart. */
module EpaxosQuorums {
  import opened Collections
  import opened EpaxosTypes
  import opened EpaxosReplica
  import opened EpaxosProtocol
  import opened EpaxosInterference

  // ---- building runs ----------------------------------------------------------------------------

  ghost predicate RunOf(run: seq<System>, atomic: bool) {
    |run| > 0 && if atomic then AtomicRun(run) else Run(run)
  }

  ghost function Last(run: seq<System>): System
    requires |run| > 0
  {
    run[|run| - 1]
  }

  lemma Extend(run: seq<System>, e: Event, atomic: bool) returns (more: seq<System>)
    requires RunOf(run, atomic) && Shape(Last(run)) && Enabled(Last(run), e)
    requires atomic && e.Propose? ==> Current(Last(run), e.i)
    ensures RunOf(more, atomic) && Last(more) == Apply(Last(run), e)
  {
    hide Apply, Enabled, InitState, Current;
    more := run + [Apply(Last(run), e)];
    forall k | 0 <= k < |more| - 1
      ensures if atomic then AtomicStep(more[k], more[k + 1]) else Step(more[k], more[k + 1])
    {
      if k < |run| - 1 {
        assert if atomic then AtomicStep(run[k], run[k + 1]) else Step(run[k], run[k + 1]);
      }
    }
  }

  // ---- one group of replicas that knows nothing of the key ----------------------------------------

  const NEW := Replica(map[], map[], 0)

  /** Nothing has been stored at replica q. */
  ghost predicate Untouched(s: System, q: nat) {
    q < |s.replicas| && s.replicas[q].cmds == map[] && s.replicas[q].root == map[]
  }

  /** The instance a leader reads attributes for on an untouched replica. */
  function FirstOn(r: nat, y: Command): Instance {
    Instance(InstanceId(r, 1), BallotNumber(0, 0, r), BallotNumber(0, 0, r), PreAccepted, y, 1, {})
  }

  /** The leader has m positive answers, all with its own attributes. */
  function Agreed(n: nat, r: nat, y: Command, m: nat): Tally
    requires n > 0
  {
    Tally({}, 1, false, 1 + m, BallotNumber(0, 0, r), m > 0 && 1 + m >= FastQuorum(n))
  }

  /** Leader r has heard exactly the replicas in heard, and all agree. */
  ghost predicate Gathering(s: System, r: nat, y: Command, heard: set<nat>) {
    var ins := FirstOn(r, y);
    && Shape(s) && r < |s.replicas| && PreAcceptMsg(Req(ins)) in s.msgs
    && ins.i in s.leaders && s.leaders[ins.i].Collecting? && s.leaders[ins.i].ins == ins
    && s.leaders[ins.i].tally == Agreed(|s.replicas|, r, y, |heard|) && s.leaders[ins.i].heard == heard
  }

  /** Nothing but the replicas in group and the instance of leader r differs. */
  ghost predicate Aside(s: System, t: System, group: set<nat>, r: nat) {
    && Shape(t) && |t.replicas| == |s.replicas|
    && (forall q :: 0 <= q < |s.replicas| && q !in group ==> t.replicas[q] == s.replicas[q])
    && (forall i :: i in s.leaders && i != InstanceId(r, 1) ==> i in t.leaders && t.leaders[i] == s.leaders[i])
    && (forall i :: i in s.decided && i != InstanceId(r, 1) ==> i in t.decided && t.decided[i] == s.decided[i])
  }

  lemma ReadAttributes(run: seq<System>, r: nat, y: Command, atomic: bool) returns (more: seq<System>)
    requires RunOf(run, atomic) && Shape(Last(run)) && r < |Last(run).replicas| && Last(run).replicas[r] == NEW
    ensures RunOf(more, atomic) && Aside(Last(run), Last(more), {r}, r)
    ensures var s := Last(more);
      && InstanceId(r, 1) in s.leaders && s.leaders[InstanceId(r, 1)] == Reading(FirstOn(r, y))
      && s.replicas[r] == Replica(map[], map[], 1)
  {
    hide AtomicRun, Run;
    more := Extend(run, Begin(r, y, 0), atomic);
  }

  /** The leader stores and sends; in an atomic run it must not have seen the key meanwhile. */
  lemma ProposeFirst(run: seq<System>, r: nat, y: Command, atomic: bool) returns (more: seq<System>)
    requires RunOf(run, atomic) && Shape(Last(run)) && r < |Last(run).replicas|
    requires InstanceId(r, 1) in Last(run).leaders && Last(run).leaders[InstanceId(r, 1)] == Reading(FirstOn(r, y))
    requires atomic ==> Last(run).replicas[r] == Replica(map[], map[], 1)
    ensures RunOf(more, atomic) && Aside(Last(run), Last(more), {r}, r) && Gathering(Last(more), r, y, {})
  {
    hide AtomicRun, Run;
    more := Extend(run, Propose(InstanceId(r, 1)), atomic);
  }

  /** An untouched replica answers and is heard. */
  lemma OneAnswer(run: seq<System>, r: nat, y: Command, heard: set<nat>, h: nat, atomic: bool)
    returns (more: seq<System>)
    requires RunOf(run, atomic) && Gathering(Last(run), r, y, heard) && Untouched(Last(run), h) && h != r && h !in heard
    requires |heard| == 0 || 1 + |heard| < FastQuorum(|Last(run).replicas|)
    ensures RunOf(more, atomic) && Aside(Last(run), Last(more), {h}, r) && Gathering(Last(more), r, y, heard + {h})
  {
    hide AtomicRun, Run, Aside, Gathering, Untouched, FastQuorum;
    var asked, at := OneAsked(run, r, y, heard, h, atomic);
    more := OneHeard(asked, r, y, heard, h, at, atomic);
    AsideBoth(Last(run), Last(asked), Last(more), {h}, {}, r);
    assert {h} + {} == {h};
  }

  lemma OneAsked(run: seq<System>, r: nat, y: Command, heard: set<nat>, h: nat, atomic: bool)
    returns (asked: seq<System>, at: nat)
    requires RunOf(run, atomic) && Gathering(Last(run), r, y, heard) && Untouched(Last(run), h) && h != r
    ensures RunOf(asked, atomic) && Aside(Last(run), Last(asked), {h}, r) && Gathering(Last(asked), r, y, heard)
    ensures |Last(asked).replicas| == |Last(run).replicas| > h
    ensures PreAcceptReply(InstanceId(r, 1), h, PreAcceptResp(true, BallotNumber(0, 0, r), 1, {}), at) in
      Last(asked).msgs
  {
    hide AtomicRun, Run;
    var s, ins := Last(run), FirstOn(r, y);
    at := |s.logs[h]|;
    Answered(s, r, y, heard, h);
    asked := Extend(run, HandlePreAccept(h, PreAcceptMsg(Req(ins))), atomic);
  }

  lemma OneHeard(asked: seq<System>, r: nat, y: Command, heard: set<nat>, h: nat, at: nat, atomic: bool)
    returns (more: seq<System>)
    requires RunOf(asked, atomic) && Gathering(Last(asked), r, y, heard) && h != r && h !in heard
    requires h < |Last(asked).replicas| && (|heard| == 0 || 1 + |heard| < FastQuorum(|Last(asked).replicas|))
    requires PreAcceptReply(InstanceId(r, 1), h, PreAcceptResp(true, BallotNumber(0, 0, r), 1, {}), at) in
      Last(asked).msgs
    ensures RunOf(more, atomic) && Aside(Last(asked), Last(more), {}, r) && Gathering(Last(more), r, y, heard + {h})
  {
    hide AtomicRun, Run, Aside;
    var reply := PreAcceptReply(InstanceId(r, 1), h, PreAcceptResp(true, BallotNumber(0, 0, r), 1, {}), at);
    Heard(Last(asked), r, y, heard, h, reply);
    more := Extend(asked, HearPreAccept(InstanceId(r, 1), h, Some(reply)), atomic);
  }

  lemma Answered(s: System, r: nat, y: Command, heard: set<nat>, h: nat)
    requires Gathering(s, r, y, heard) && Untouched(s, h) && h != r
    ensures var ins := FirstOn(r, y);
      var t := DoPreAccept(s, h, Req(ins));
      && Gathering(t, r, y, heard) && Aside(s, t, {h}, r) && t.leaders == s.leaders
      && PreAcceptReply(ins.i, h, PreAcceptResp(true, ins.ballot, 1, {}), |s.logs[h]|) in t.msgs
  {
    assert PreAcceptedAs(s.replicas[h], Req(FirstOn(r, y))) == FirstOn(r, y);
  }

  lemma Heard(s: System, r: nat, y: Command, heard: set<nat>, h: nat, reply: Msg)
    requires Gathering(s, r, y, heard) && h !in heard && reply.PreAcceptReply?
    requires reply.resp == PreAcceptResp(true, BallotNumber(0, 0, r), 1, {})
    ensures var t := DoHear(s, InstanceId(r, 1), h, Some(reply));
      Gathering(t, r, y, heard + {h}) && Aside(s, t, {}, r)
  {
  }

  /** Several untouched replicas answer, fewer than would end the loop before the last. */
  lemma {:induction false} Answers(run: seq<System>, r: nat, y: Command, hs: seq<nat>, atomic: bool)
    returns (more: seq<System>)
    requires RunOf(run, atomic) && Gathering(Last(run), r, y, {}) && Askable(Last(run), hs, r)
    requires |hs| <= 1 || |hs| < FastQuorum(|Last(run).replicas|)
    ensures RunOf(more, atomic) && Aside(Last(run), Last(more), Elems(hs), r)
    ensures Gathering(Last(more), r, y, Elems(hs)) && |Elems(hs)| == |hs|
  {
    hide AtomicRun, Run, Gathering, Aside, Untouched, FastQuorum, Elems, Askable;
    if hs == [] {
      assert Elems(hs) == {};
      AsideSame(Last(run), r, y);
      more := run;
    } else {
      var n, h := |hs| - 1, hs[|hs| - 1];
      LastAsked(Last(run), hs, r);
      var part := Answers(run, r, y, hs[..n], atomic);
      AsideKeeps(Last(run), Last(part), Elems(hs[..n]), r, h);
      more := OneAnswer(part, r, y, Elems(hs[..n]), h, atomic);
      AsideBoth(Last(run), Last(part), Last(more), Elems(hs[..n]), {h}, r);
    }
  }

  /** Other replicas, all different, that have stored nothing yet. */
  ghost predicate Askable(s: System, hs: seq<nat>, r: nat) {
    && (forall k :: 0 <= k < |hs| ==> Untouched(s, hs[k]) && hs[k] != r)
    && (forall k, l :: 0 <= k < l < |hs| ==> hs[k] != hs[l])
  }

  lemma LastAsked(s: System, hs: seq<nat>, r: nat)
    requires hs != [] && Askable(s, hs, r)
    ensures var n := |hs| - 1;
      && Askable(s, hs[..n], r) && Untouched(s, hs[n]) && hs[n] != r
      && hs[n] !in Elems(hs[..n]) && Elems(hs) == Elems(hs[..n]) + {hs[n]}
  {
    hide Untouched;
  }

  lemma AsideKeeps(s: System, t: System, group: set<nat>, r: nat, h: nat)
    requires Aside(s, t, group, r) && Untouched(s, h) && h !in group
    ensures Untouched(t, h) && |t.replicas| == |s.replicas|
  {
  }

  lemma AsideBoth(s: System, t: System, u: System, a: set<nat>, b: set<nat>, r: nat)
    requires Aside(s, t, a, r) && Aside(t, u, b, r)
    ensures Aside(s, u, a + b, r)
  {
  }

  lemma AsideSame(s: System, r: nat, y: Command)
    requires Gathering(s, r, y, {})
    ensures Aside(s, s, {}, r)
  {
  }

  /** With two replicas a failed call is enough. */
  lemma CallFails(run: seq<System>, r: nat, y: Command, h: nat, atomic: bool) returns (more: seq<System>)
    requires RunOf(run, atomic) && Gathering(Last(run), r, y, {}) && h != r && h < |Last(run).replicas|
    ensures RunOf(more, atomic) && Aside(Last(run), Last(more), {}, r)
    ensures Shape(Last(more)) && InstanceId(r, 1) in Last(more).leaders
    ensures Last(more).leaders[InstanceId(r, 1)].Collecting?
    ensures var l := Last(more).leaders[InstanceId(r, 1)];
      l.ins == FirstOn(r, y) && l.tally == Agreed(|Last(more).replicas|, r, y, 0) && l.heard == {h}
  {
    hide AtomicRun, Run;
    more := Extend(run, HearPreAccept(InstanceId(r, 1), h, None), atomic);
  }

  /** Phase 1 ends on the fast path with what the leader proposed. */
  lemma Decides(run: seq<System>, r: nat, y: Command, m: nat, atomic: bool) returns (more: seq<System>)
    requires RunOf(run, atomic) && Shape(Last(run)) && r < |Last(run).replicas| && InstanceId(r, 1) in Last(run).leaders
    requires Last(run).leaders[InstanceId(r, 1)].Collecting?
    requires var l, n := Last(run).leaders[InstanceId(r, 1)], |Last(run).replicas|;
      && l.ins == FirstOn(r, y) && l.tally == Agreed(n, r, y, m) && 1 + m >= FastQuorum(n)
      && (m > 0 || forall p :: 0 <= p < n && p != r ==> p in l.heard)
    ensures RunOf(more, atomic) && Aside(Last(run), Last(more), {r}, r)
    ensures InstanceId(r, 1) in Last(more).decided
    ensures var d := Last(more).decided[InstanceId(r, 1)]; d.y == y && d.deps == {}
  {
    hide AtomicRun, Run;
    more := Extend(run, EndPhase1(InstanceId(r, 1)), atomic);
  }

  /** A group of untouched replicas decides a command without dependencies, and the others notice nothing. */
  lemma GroupDecides(run: seq<System>, r: nat, y: Command, hs: seq<nat>, atomic: bool) returns (more: seq<System>)
    requires RunOf(run, atomic) && Shape(Last(run)) && r < |Last(run).replicas| && Last(run).replicas[r] == NEW
    requires forall k :: 0 <= k < |hs| ==> Untouched(Last(run), hs[k]) && hs[k] != r
    requires forall k, l :: 0 <= k < l < |hs| ==> hs[k] != hs[l]
    requires var n := |Last(run).replicas|;
      1 + |hs| >= FastQuorum(n) && (|hs| <= 1 || |hs| < FastQuorum(n)) && (hs == [] ==> n == 2)
    ensures RunOf(more, atomic) && Aside(Last(run), Last(more), Elems(hs) + {r}, r)
    ensures InstanceId(r, 1) in Last(more).decided
    ensures var d := Last(more).decided[InstanceId(r, 1)]; d.y == y && d.deps == {}
  {
    hide AtomicRun, Run, Aside, FastQuorum;
    var read := ReadAttributes(run, r, y, atomic);
    AsideSize(Last(run), Last(read), {r}, r);
    var sent := ProposeFirst(read, r, y, atomic);
    AsideBoth(Last(run), Last(read), Last(sent), {r}, {r}, r);
    more := AskAndDecide(run, sent, r, y, hs, atomic);
  }

  lemma AskAndDecide(run: seq<System>, sent: seq<System>, r: nat, y: Command, hs: seq<nat>, atomic: bool)
    returns (more: seq<System>)
    requires |run| > 0 && RunOf(sent, atomic) && Gathering(Last(sent), r, y, {})
    requires Aside(Last(run), Last(sent), {r} + {r}, r)
    requires Askable(Last(run), hs, r) && |Last(run).replicas| > 0
    requires var n := |Last(run).replicas|;
      1 + |hs| >= FastQuorum(n) && (|hs| <= 1 || |hs| < FastQuorum(n)) && (hs == [] ==> n == 2)
    ensures RunOf(more, atomic) && Aside(Last(run), Last(more), Elems(hs) + {r}, r)
    ensures InstanceId(r, 1) in Last(more).decided
    ensures var d := Last(more).decided[InstanceId(r, 1)]; d.y == y && d.deps == {}
  {
    hide AtomicRun, Run, Aside, Untouched, FastQuorum;
    AsideSize(Last(run), Last(sent), {r} + {r}, r);
    forall k | 0 <= k < |hs| ensures Untouched(Last(sent), hs[k]) {
      AsideKeeps(Last(run), Last(sent), {r} + {r}, r, hs[k]);
    }
    var heard;
    if hs == [] {
      heard := CallFails(sent, r, y, 1 - r, atomic);
      AsideBoth(Last(run), Last(sent), Last(heard), {r} + {r}, {}, r);
      AsideSize(Last(sent), Last(heard), {}, r);
      assert {r} + {r} + {} == Elems(hs) + {r};
    } else {
      heard := Answers(sent, r, y, hs, atomic);
      AsideBoth(Last(run), Last(sent), Last(heard), {r} + {r}, Elems(hs), r);
      AsideSize(Last(sent), Last(heard), Elems(hs), r);
      assert {r} + {r} + Elems(hs) == Elems(hs) + {r};
    }
    more := Decides(heard, r, y, |hs|, atomic);
    AsideBoth(Last(run), Last(heard), Last(more), Elems(hs) + {r}, {r}, r);
    assert Elems(hs) + {r} + {r} == Elems(hs) + {r};
  }

  lemma AsideSize(s: System, t: System, group: set<nat>, r: nat)
    requires Aside(s, t, group, r)
    ensures Shape(t) && |t.replicas| == |s.replicas|
  {
  }

  // ---- the failing runs -------------------------------------------------------------------------

  function Start(n: nat): System {
    System(seq(n, _ => NEW), map[], {}, seq(n, _ => []), map[], map[])
  }

  lemma FirstRun(n: nat, atomic: bool) returns (run: seq<System>)
    requires n > 0
    ensures RunOf(run, atomic) && Last(run) == Start(n) && Shape(Last(run))
  {
    run := [Start(n)];
  }

  /** Both commands are decided on one key and neither sees the other. */
  ghost predicate Blind(s: System, i: InstanceId, j: InstanceId) {
    && i != j && i in s.decided && j in s.decided && s.decided[i].y.key == s.decided[j].y.key
    && forall q :: !Sees(s, q, i, j) && !Sees(s, q, j, i)
  }

  lemma NoDepsIsBlind(s: System, i: InstanceId, j: InstanceId, y: Command)
    requires i != j && i in s.decided && j in s.decided && s.decided[i].y == y && s.decided[j].y == y
    requires s.decided[i].deps == {} && s.decided[j].deps == {}
    ensures Blind(s, i, j)
  {
  }

  /** The replicas that the leader of the first or second half asks. */
  function Half(n: nat, r: nat): seq<nat> {
    if n == 2 then [] else if n == 4 then [r + 1] else [r + 1, r + 2]
  }

  /** Two, four or six replicas: each half decides on its own. */
  lemma HalvesAreBlind(n: nat, y: Command) returns (run: seq<System>)
    requires n == 2 || n == 4 || n == 6
    ensures AtomicRun(run) && |run| > 0 && |Last(run).replicas| == n
    ensures Blind(Last(run), InstanceId(0, 1), InstanceId(n / 2, 1))
  {
    var r := n / 2;
    var start := FirstRun(n, true);
    var first := GroupDecides(start, 0, y, Half(n, 0), true);
    AsideSize(Last(start), Last(first), Elems(Half(n, 0)) + {0}, 0);
    var second := HalfDecides(start, first, n, y);
    run := second;
    NoDepsIsBlind(Last(run), InstanceId(0, 1), InstanceId(r, 1), y);
  }

  lemma HalfDecides(start: seq<System>, first: seq<System>, n: nat, y: Command) returns (run: seq<System>)
    requires (n == 2 || n == 4 || n == 6) && |start| > 0 && Last(start) == Start(n) && RunOf(first, true)
    requires Aside(Last(start), Last(first), Elems(Half(n, 0)) + {0}, 0) && InstanceId(0, 1) in Last(first).decided
    ensures RunOf(run, true) && |Last(run).replicas| == n
    ensures InstanceId(0, 1) in Last(run).decided
    ensures Last(run).decided[InstanceId(0, 1)] == Last(first).decided[InstanceId(0, 1)]
    ensures InstanceId(n / 2, 1) in Last(run).decided
    ensures var d := Last(run).decided[InstanceId(n / 2, 1)]; d.y == y && d.deps == {}
  {
    hide AtomicRun, Run;
    var r := n / 2;
    forall q | r <= q < n ensures Untouched(Last(first), q) && Last(first).replicas[q] == NEW {
      assert q !in Half(n, 0);
    }
    run := GroupDecides(first, r, y, Half(n, r), true);
  }

  /** With n replicas, of any two commands decided on a key one sees the other, in every atomic run. */
  ghost predicate AlwaysSees(n: nat) {
    forall run: seq<System>, k: nat, i, j ::
      AtomicRun(run) && k < |run| && |run[k].replicas| == n && i in run[k].decided && j in run[k].decided ==>
      !Blind(run[k], i, j)
  }

  /** Interference holds exactly for an odd number of replicas and from eight on. */
  lemma InterferenceExactly(n: nat)
    requires n > 0
    ensures AlwaysSees(n) <==> n % 2 == 1 || n >= 8
  {
    hide AtomicRun, Sees;
    if n % 2 == 1 || n >= 8 {
      forall run: seq<System>, k: nat, i, j |
        AtomicRun(run) && k < |run| && |run[k].replicas| == n && i in run[k].decided && j in run[k].decided
        ensures !Blind(run[k], i, j)
      {
        if Blind(run[k], i, j) { Interference(run, k, i, j); }
      }
    } else {
      var run := HalvesAreBlind(n, Command(W, "", []));
      var k := |run| - 1;
      assert Blind(run[k], InstanceId(0, 1), InstanceId(n / 2, 1));
    }
  }

  /**
   * Why the leader's read and first store must be one step: with three replicas, a store on the key
   * between them leaves two decided commands that do not see each other.
   */
  lemma ApartIsBlind(y: Command) returns (run: seq<System>)
    ensures Run(run) && |run| > 0 && |Last(run).replicas| == 3 && Blind(Last(run), InstanceId(0, 1), InstanceId(1, 1))
  {
    hide AtomicRun, Run;
    var start := FirstRun(3, false);
    var read := ReadAttributes(start, 0, y, false);
    run := OtherThenFirst(start, read, y);
    NoDepsIsBlind(Last(run), InstanceId(0, 1), InstanceId(1, 1), y);
  }

  /** Replica 0 has read; 1 decides with 0's answer; 0 stores what it read and decides with 2's answer. */
  lemma OtherThenFirst(start: seq<System>, read: seq<System>, y: Command) returns (run: seq<System>)
    requires |start| > 0 && Last(start) == Start(3) && RunOf(read, false) && Aside(Last(start), Last(read), {0}, 0)
    requires var s := Last(read);
      && InstanceId(0, 1) in s.leaders && s.leaders[InstanceId(0, 1)] == Reading(FirstOn(0, y))
      && s.replicas[0] == Replica(map[], map[], 1)
    ensures RunOf(run, false) && |Last(run).replicas| == 3
    ensures InstanceId(0, 1) in Last(run).decided && InstanceId(1, 1) in Last(run).decided
    ensures var d := Last(run).decided[InstanceId(0, 1)]; d.y == y && d.deps == {}
    ensures var d := Last(run).decided[InstanceId(1, 1)]; d.y == y && d.deps == {}
  {
    hide AtomicRun, Run;
    var other := GroupDecides(read, 1, y, [0], false);
    assert Elems([0]) == {0};
    var sent := ProposeFirst(other, 0, y, false);
    assert {0} + {0} == {0};
    run := AskAndDecide(other, sent, 0, y, [2], false);
  }
}
