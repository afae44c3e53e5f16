/** The fast path compares Deps only: when the Seqs agree, too, and a run in which they do not. */
module EpaxosSeqs {
  import opened Collections
  import opened EpaxosTypes
  import opened EpaxosReplica
  import opened EpaxosProtocol
  import opened EpaxosInterference
  import opened EpaxosAttributes
  import opened EpaxosOrigins
  import opened EpaxosFastPath
  import opened EpaxosQuorums

  // ---- when the replicas counted stored the Seq committed -----------------------------------------

  lemma StepSize(s: System, e: Event)
    requires Shape(s) && Enabled(s, e)
    ensures |Apply(s, e).replicas| == |s.replicas|
  {
    hide Store, EntryFor, Count, Interf;
  }

  lemma {:induction false} RunSize(run: seq<System>, k: nat)
    requires Run(run) && k < |run|
    ensures |run[k].replicas| == |run[0].replicas|
  {
    if k > 0 {
      RunSize(run, k - 1);
      assert Step(run[k - 1], run[k - 1 + 1]);
      hide Enabled, Apply, InitState;
      var e :| Enabled(run[k - 1], e) && run[k] == Apply(run[k - 1], e);
      StepSize(run[k - 1], e);
    }
  }

  /** All stores on the key of store b before it have a lower Seq than this. */
  ghost predicate AllBelow(log: seq<Entry>, b: nat, seqno: nat)
    requires b < |log|
  {
    forall a :: 0 <= a < b && log[a].y.key == log[b].y.key ==> log[a].seqno < seqno
  }

  lemma AnswersBelow(log: seq<Entry>, b: nat, req: PreAcceptReq)
    requires b < |log| && EpaxosAttributes.Answers(log, b, req)
    ensures req.seqno <= log[b].seqno && (log[b].seqno == req.seqno <==> AllBelow(log, b, req.seqno))
  {
    hide NewestIs;
    if log[b].seqno != req.seqno {
      var a :| 0 <= a < b && log[a].y.key == log[b].y.key && log[a].seqno + 1 == log[b].seqno;
    }
  }

  /** The leader stored the Seq and Deps that are committed. */
  lemma OwnIsCommitted(logs: seq<seq<Entry>>, i: InstanceId, d: Decision, c: Attrs)
    requires CommitAttr(logs, i, d, c) && DecisionAttr(logs, i, d)
    ensures i.rid in d.counted && i.rid < |logs| && logs[i.rid][d.counted[i.rid]].seqno == c.seqno
  {
    var ins :| DecidedFrom(logs, i, d, ins);
    hide Places, AllDeps, HighestSeq, FastQuorum, Majority;
    var own := logs[i.rid][d.counted[i.rid]];
    assert !Other(logs, d.counted, d.deps, i.rid);
    assert own.deps == ins.deps == d.deps;
  }

  /**
   * In every run, the replicas counted for a commit all stored its Deps, but not all its Seq: those other than the
   * leader stored it exactly if every earlier store of theirs on the key had a lower one, and otherwise a higher one.
   */
  lemma SeqsAgreeExactly(run: seq<System>, k: nat, i: InstanceId, q: nat)
    requires Run(run) && k < |run| && i in run[k].committed
    requires i in run[k].decided && q in run[k].decided[i].counted
    ensures var s, b := run[k], run[k].decided[i].counted[q];
      && q < |s.logs| && b < |s.logs[q]|
      && s.logs[q][b].deps == s.committed[i].deps && s.logs[q][b].seqno >= s.committed[i].seqno
      && (s.logs[q][b].seqno == s.committed[i].seqno <==>
          q == i.rid || AllBelow(s.logs[q], b, s.committed[i].seqno))
  {
    hide Run, AttrInv, Enabled, Apply, FastInv;
    DecidedInEveryRun(run, k, i);
    CommittedInEveryRun(run, k, i);
    var s, d, c := run[k], run[k].decided[i], run[k].committed[i];
    OwnIsCommitted(s.logs, i, d, c);
    CountedStore(s.logs, i, d, c, q);
    hide DecidedFrom, CommitAttr, Stems, EpaxosAttributes.Answers;
    var b := d.counted[q];
    if q != i.rid {
      AnsweredStores(run, k, q, b);
      var req :| PreAcceptMsg(req) in s.msgs && EpaxosAttributes.Answers(s.logs[q], b, req);
      AnswersBelow(s.logs[q], b, req);
      AnswersFor(s.logs[q], b, req);
      RunSize(run, k);
      RunShape(run, k);
      CommittedAsProposed(run, k, req);
    }
  }

  lemma CountedStore(logs: seq<seq<Entry>>, i: InstanceId, d: Decision, c: Attrs, q: nat)
    requires CommitAttr(logs, i, d, c) && DecisionAttr(logs, i, d) && q in d.counted
    ensures q < |logs| && d.counted[q] < |logs[q]|
    ensures var e := logs[q][d.counted[q]]; e.i == i && e.state == PreAccepted && e.deps == c.deps
  {
    var ins :| DecidedFrom(logs, i, d, ins);
    hide AllDeps, HighestSeq, FastQuorum, Majority, Carries;
    assert !Other(logs, d.counted, d.deps, q);
  }

  lemma AnswersFor(log: seq<Entry>, b: nat, req: PreAcceptReq)
    requires b < |log| && EpaxosAttributes.Answers(log, b, req)
    ensures log[b].i == req.i
  {
    hide NewestIs, Above, OneMore;
  }

  lemma RunShape(run: seq<System>, k: nat)
    requires Run(run) && k < |run|
    ensures Shape(run[k])
  {
    RunAttr(run, k);
    hide Run, LogAttr, LeaderAttr, MsgAttr, DecisionAttr, CommitAttr;
  }

  // ---- a run in which they do not -----------------------------------------------------------------

  function Proposal(s: System, r: nat, y: Command): Instance
    requires r < |s.replicas|
  {
    var (seqno, deps) := Interf(s.replicas[r], y.key);
    var ballot := BallotNumber(0, 0, r);
    Instance(InstanceId(r, s.replicas[r].instanceIdx + 1), ballot, ballot, PreAccepted, y, seqno + 1, deps)
  }

  /** What is known of s still holds in t, apart from replica r and the leader of i. */
  ghost predicate Goes(s: System, t: System, r: nat, i: InstanceId) {
    && Shape(s) && Shape(t) && |t.replicas| == |s.replicas| && s.msgs <= t.msgs
    && (forall q :: 0 <= q < |s.replicas| && q != r ==> t.replicas[q] == s.replicas[q])
    && (forall j :: j in s.leaders && j != i ==> j in t.leaders && t.leaders[j] == s.leaders[j])
    && (forall j :: j in s.decided && j != i ==> j in t.decided && t.decided[j] == s.decided[j])
  }

  lemma Proposes(run: seq<System>, r: nat, y: Command) returns (more: seq<System>)
    requires RunOf(run, true) && Shape(Last(run)) && r < |Last(run).replicas|
    ensures RunOf(more, true)
    ensures var s, t, ins := Last(run), Last(more), Proposal(Last(run), r, y);
      && Goes(s, t, r, ins.i) && t.replicas[r] == Store(s.replicas[r].(instanceIdx := ins.i.index), ins)
      && ins.i in t.leaders && t.leaders[ins.i].Collecting? && t.leaders[ins.i].ins == ins
      && t.leaders[ins.i].tally == FirstTally(ins) && t.leaders[ins.i].heard == {}
      && PreAcceptMsg(Req(ins)) in t.msgs
  {
    hide AtomicRun, Run, Store, Interf, FirstTally, EntryFor;
    var ins := Proposal(Last(run), r, y);
    var begun := Extend(run, Begin(r, y, 0), true);
    assert Last(begun).leaders[ins.i] == Reading(ins);
    SameInterf(Last(run).replicas[r], ins.i.index, y.key);
    more := Extend(begun, Propose(ins.i), true);
  }

  lemma SameInterf(r: Replica, index: nat, key: string)
    ensures Interf(r.(instanceIdx := index), key) == Interf(r, key)
  {
  }

  lemma Replies(run: seq<System>, r: nat, req: PreAcceptReq) returns (more: seq<System>, reply: Msg)
    requires RunOf(run, true) && Shape(Last(run)) && r < |Last(run).replicas| && PreAcceptMsg(req) in Last(run).msgs
    requires req.i.rid != r && req.i !in Last(run).replicas[r].cmds
    ensures RunOf(more, true)
    ensures var s, t, ins := Last(run), Last(more), PreAcceptedAs(Last(run).replicas[r], req);
      && Goes(s, t, r, req.i) && t.leaders == s.leaders && t.replicas[r] == Store(s.replicas[r], ins)
      && reply in t.msgs && reply.PreAcceptReply? && reply.i == req.i && reply.from == r
      && reply.resp == PreAcceptResp(true, ins.ballot, ins.seqno, ins.deps)
  {
    hide AtomicRun, Run, Store, PreAcceptedAs, EntryFor;
    var s := Last(run);
    var ins := PreAcceptedAs(s.replicas[r], req);
    reply := PreAcceptReply(req.i, r, PreAcceptResp(true, ins.ballot, ins.seqno, ins.deps), |s.logs[r]|);
    more := Extend(run, HandlePreAccept(r, PreAcceptMsg(req)), true);
  }

  /** The first answer of three is heard, and phase 1 ends with it. */
  lemma HearsAndEnds(run: seq<System>, ins: Instance, reply: Msg) returns (more: seq<System>)
    requires RunOf(run, true) && Shape(Last(run)) && |Last(run).replicas| == 3 && ins.i.rid < 3
    requires var s := Last(run);
      && ins.i in s.leaders && s.leaders[ins.i].Collecting? && s.leaders[ins.i].ins == ins
      && s.leaders[ins.i].tally == FirstTally(ins) && s.leaders[ins.i].heard == {}
      && reply in s.msgs && reply.PreAcceptReply? && reply.i == ins.i && reply.from < 3 && reply.from != ins.i.rid
    requires reply.resp.ok
    ensures RunOf(more, true) && Goes(Last(run), Last(more), ins.i.rid, ins.i)
    ensures var t, resp := Last(more), reply.resp;
      && ins.i in t.decided && t.decided[ins.i].y == ins.y
      && (if resp.deps == ins.deps
          then ins.i in t.committed && t.committed[ins.i] == Attrs(ins.y, ins.seqno, ins.deps)
          else t.decided[ins.i].seqno == (if resp.seqno > ins.seqno then resp.seqno else ins.seqno))
  {
    hide AtomicRun, Run, Store, EntryFor;
    var heard := Extend(run, HearPreAccept(ins.i, reply.from, Some(reply)), true);
    assert FastQuorum(3) == 2 && Majority(3) == 2;
    assert Last(heard).leaders[ins.i].tally == Count(3, ins, FirstTally(ins), Some(reply.resp));
    assert Last(heard).leaders[ins.i].tally.stop;
    hide Count;
    more := Extend(heard, EndPhase1(ins.i), true);
  }

  /** The newest instance on the key at this replica, and its Seq. */
  ghost predicate Names(r: Replica, key: string, seqno: nat, i: InstanceId) {
    Interf(r, key) == (seqno, {i})
  }

  lemma StoreNames(r: Replica, ins: Instance)
    requires ins.seqno > Interf(r, ins.y.key).0
    ensures Names(Store(r, ins), ins.y.key, ins.seqno, ins.i) && Store(r, ins).cmds.Keys == r.cmds.Keys + {ins.i}
    ensures Store(r, ins).instanceIdx == r.instanceIdx
  {
  }

  lemma ProposesNext(run: seq<System>, r: nat, y: Command) returns (more: seq<System>)
    requires RunOf(run, true) && Shape(Last(run)) && r < |Last(run).replicas|
    ensures RunOf(more, true)
    ensures var s, t, ins := Last(run), Last(more), Proposal(Last(run), r, y);
      && Goes(s, t, r, ins.i) && Names(t.replicas[r], y.key, ins.seqno, ins.i)
      && t.replicas[r].instanceIdx == ins.i.index && t.replicas[r].cmds.Keys == s.replicas[r].cmds.Keys + {ins.i}
      && ins.i in t.leaders && t.leaders[ins.i].Collecting? && t.leaders[ins.i].ins == ins
      && t.leaders[ins.i].tally == FirstTally(ins) && t.leaders[ins.i].heard == {}
      && PreAcceptMsg(Req(ins)) in t.msgs
  {
    var s, ins := Last(run), Proposal(Last(run), r, y);
    SameInterf(s.replicas[r], ins.i.index, y.key);
    StoreNames(s.replicas[r].(instanceIdx := ins.i.index), ins);
    hide AtomicRun, Run, Store, Interf, FirstTally, Names, Goes, Req;
    more := Proposes(run, r, y);
  }

  lemma RepliesNext(run: seq<System>, r: nat, ins: Instance, m: nat, last: InstanceId)
    returns (more: seq<System>, reply: Msg)
    requires RunOf(run, true) && Shape(Last(run)) && r < |Last(run).replicas|
    requires PreAcceptMsg(Req(ins)) in Last(run).msgs && ins.i.rid != r && ins.i !in Last(run).replicas[r].cmds
    requires Names(Last(run).replicas[r], ins.y.key, m, last) && ins.seqno <= m
    ensures RunOf(more, true)
    ensures var s, t := Last(run), Last(more);
      && Goes(s, t, r, ins.i) && t.leaders == s.leaders && Names(t.replicas[r], ins.y.key, m + 1, ins.i)
      && t.replicas[r].cmds.Keys == s.replicas[r].cmds.Keys + {ins.i}
      && reply in t.msgs && reply.PreAcceptReply? && reply.i == ins.i && reply.from == r && reply.resp.ok
      && reply.resp.seqno == m + 1 && reply.resp.deps == {last} + ins.deps
  {
    var rep := Last(run).replicas[r];
    var was := PreAcceptedAs(rep, Req(ins));
    assert was.seqno == m + 1 && was.deps == {last} + ins.deps && was.i == ins.i && was.y == ins.y;
    StoreNames(rep, was);
    hide AtomicRun, Run, Store, Interf, PreAcceptedAs, Names, Goes;
    more, reply := Replies(run, r, Req(ins));
  }

  const Z1 := InstanceId(1, 1)
  const Z2 := InstanceId(1, 2)
  const X1 := InstanceId(0, 1)
  const Y2 := InstanceId(0, 2)

  function Mine(index: nat, y: Command, seqno: nat, deps: set<InstanceId>): Instance {
    Instance(InstanceId(0, index), BallotNumber(0, 0, 0), BallotNumber(0, 0, 0), PreAccepted, y, seqno, deps)
  }

  /** The leader has sent this and heard nothing. */
  ghost predicate Sent(s: System, ins: Instance) {
    && ins.i in s.leaders && s.leaders[ins.i].Collecting? && s.leaders[ins.i].ins == ins
    && s.leaders[ins.i].tally == FirstTally(ins) && s.leaders[ins.i].heard == {} && PreAcceptMsg(Req(ins)) in s.msgs
  }

  lemma GoesSent(s: System, t: System, r: nat, i: InstanceId, ins: Instance)
    requires Goes(s, t, r, i) && i != ins.i && Sent(s, ins)
    ensures Sent(t, ins)
  {
  }

  lemma GoesReplica(s: System, t: System, r: nat, i: InstanceId, q: nat)
    requires Goes(s, t, r, i) && q != r && q < |s.replicas|
    ensures |t.replicas| == |s.replicas| == |t.logs| && t.replicas[q] == s.replicas[q]
  {
  }

  /** Replica 1 has stored two commands of its own; then the leader at 0 has sent two. */
  ghost predicate BothSent(s: System, y: Command) {
    && Shape(s) && |s.replicas| == 3 && Names(s.replicas[1], y.key, 2, Z2) && s.replicas[1].cmds.Keys == {Z1, Z2}
    && Sent(s, Mine(1, y, 1, {})) && Sent(s, Mine(2, y, 2, {X1}))
  }

  lemma SendBoth(y: Command) returns (run: seq<System>)
    ensures RunOf(run, true) && BothSent(Last(run), y)
  {
    hide AtomicRun, Run;
    var start := FirstRun(3, true);
    var a := ProposesNext(start, 1, y);
    var b := ProposesNext(a, 1, y);
    GoesReplica(Last(start), Last(a), 1, Z1, 0);
    GoesReplica(Last(a), Last(b), 1, Z2, 0);
    assert Names(Last(b).replicas[1], y.key, 2, Z2) && Last(b).replicas[1].cmds.Keys == {Z1, Z2};
    run := SendTwo(b, y);
  }

  lemma SendTwo(b: seq<System>, y: Command) returns (run: seq<System>)
    requires RunOf(b, true) && Shape(Last(b)) && |Last(b).replicas| == 3 && Last(b).replicas[0] == NEW
    requires Names(Last(b).replicas[1], y.key, 2, Z2) && Last(b).replicas[1].cmds.Keys == {Z1, Z2}
    ensures RunOf(run, true) && BothSent(Last(run), y)
  {
    hide AtomicRun, Run;
    assert Proposal(Last(b), 0, y) == Mine(1, y, 1, {});
    var c := ProposesNext(b, 0, y);
    GoesReplica(Last(b), Last(c), 0, X1, 1);
    assert Proposal(Last(c), 0, y) == Mine(2, y, 2, {X1});
    hide Proposal, Names, Req, FirstTally;
    run := ProposesNext(c, 0, y);
    GoesReplica(Last(c), Last(run), 0, Y2, 1);
    GoesSent(Last(c), Last(run), 0, Y2, Mine(1, y, 1, {}));
    hide Goes;
  }

  /**
   * The Seq of a commit need not be above that of what it depends on: replica 1 raises the first command above the
   * second, and still answers the second with the leader's Deps.
   */
  lemma SeqMayBeLower(y: Command) returns (run: seq<System>)
    ensures AtomicRun(run) && |run| > 0 && |Last(run).replicas| == 3
    ensures Y2 in Last(run).committed && Last(run).committed[Y2] == Attrs(y, 2, {X1})
    ensures X1 in Last(run).decided && Last(run).decided[X1].y == y && Last(run).decided[X1].seqno == 3
  {
    hide AtomicRun, Run, BothSent;
    var sent := SendBoth(y);
    run := AnswerBoth(sent, y);
  }

  lemma AnswerBoth(sent: seq<System>, y: Command) returns (run: seq<System>)
    requires RunOf(sent, true) && BothSent(Last(sent), y)
    ensures RunOf(run, true) && |Last(run).replicas| == 3
    ensures Y2 in Last(run).committed && Last(run).committed[Y2] == Attrs(y, 2, {X1})
    ensures X1 in Last(run).decided && Last(run).decided[X1].y == y && Last(run).decided[X1].seqno == 3
  {
    hide AtomicRun, Run, Names, FirstTally, Req;
    var x, z := Mine(1, y, 1, {}), Mine(2, y, 2, {X1});
    var e, rx := RepliesNext(sent, 1, x, 2, Z2);
    var f, rz := RepliesNext(e, 1, z, 3, X1);
    var g := HearsAndEnds(f, x, rx);
    GoesSent(Last(f), Last(g), 0, X1, z);
    run := HearsAndEnds(g, z, rz);
  }
}
