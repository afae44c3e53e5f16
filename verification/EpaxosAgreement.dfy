/** Replicas that commit an instance agree on it, and a committed instance never changes. */
module EpaxosAgreement {
  import opened EpaxosTypes
  import opened EpaxosReplica
  import opened EpaxosProtocol

  ghost predicate CommittedAs(s: System, q: nat, i: InstanceId, a: Attrs) {
    && q < |s.replicas| && i in s.replicas[q].cmds
    && var c := s.replicas[q].cmds[i]; c.state == Committed && Attrs(c.y, c.seqno, c.deps) == a
  }

  ghost predicate LeaderOk(s: System, i: InstanceId, l: Leader) {
    && i.rid < |s.replicas| && i.index <= s.replicas[i.rid].instanceIdx
    && (!l.Finished? ==> l.ins.i == i && l.ins.state != Committed && i !in s.committed)
  }

  ghost predicate StoredOk(committed: map<InstanceId, Attrs>, c: Instance) {
    c.state == Committed ==> c.i in committed && committed[c.i] == Attrs(c.y, c.seqno, c.deps)
  }

  /** Every instance is stored under its own id, and committed ones as the leader committed them. */
  ghost predicate ReplicaOk(committed: map<InstanceId, Attrs>, r: Replica) {
    forall i :: i in r.cmds ==> r.cmds[i].i == i && StoredOk(committed, r.cmds[i])
  }

  ghost predicate MsgOk(s: System, m: Msg) {
    m.CommitMsg? ==> m.req.i in s.committed && s.committed[m.req.i] == Attrs(m.req.y, m.req.seqno, m.req.deps)
  }

  ghost predicate AgreeInv(s: System) {
    && Shape(s)
    && (forall i :: i in s.committed ==> i in s.leaders)
    && (forall i :: i in s.leaders ==> LeaderOk(s, i, s.leaders[i]))
    && (forall m :: m in s.msgs ==> MsgOk(s, m))
    && (forall q :: 0 <= q < |s.replicas| ==> ReplicaOk(s.committed, s.replicas[q]))
  }

  /** Nothing committed is lost or changed. */
  ghost predicate Persists(s: System, s': System) {
    && |s'.replicas| == |s.replicas|
    && (forall i :: i in s.committed ==> i in s'.committed && s'.committed[i] == s.committed[i])
    && (forall q, i :: 0 <= q < |s.replicas| && i in s.replicas[q].cmds && s.replicas[q].cmds[i].state == Committed ==>
          i in s'.replicas[q].cmds && s'.replicas[q].cmds[i].state == Committed)
  }

  /** Recording an instance is harmless when it does not undo a commit. */
  lemma StoreAgrees(s: System, q: nat, ins: Instance)
    requires AgreeInv(s) && q < |s.replicas| && StoredOk(s.committed, ins)
    requires ins.state == Committed || ins.i !in s.replicas[q].cmds || s.replicas[q].cmds[ins.i].state != Committed
    ensures AgreeInv(StoreAt(s, q, ins)) && Persists(s, StoreAt(s, q, ins))
  {
    StoreOk(s.committed, s.replicas[q], ins);
    hide ReplicaOk, Store, StoredOk;
  }

  lemma StoreOk(committed: map<InstanceId, Attrs>, r: Replica, ins: Instance)
    requires ReplicaOk(committed, r) && StoredOk(committed, ins)
    requires ins.state == Committed || ins.i !in r.cmds || r.cmds[ins.i].state != Committed
    ensures ReplicaOk(committed, Store(r, ins)) && Store(r, ins).instanceIdx == r.instanceIdx
    ensures forall i :: i in r.cmds && r.cmds[i].state == Committed ==>
      i in Store(r, ins).cmds && Store(r, ins).cmds[i].state == Committed
  {
  }

  lemma SendAgrees(s: System, m: Msg)
    requires AgreeInv(s) && MsgOk(s, m)
    ensures AgreeInv(Send(s, m)) && Persists(s, Send(s, m))
  {
  }

  lemma SetAgrees(s: System, i: InstanceId, l: Leader)
    requires AgreeInv(s) && LeaderOk(s, i, l)
    ensures AgreeInv(SetLeader(s, i, l)) && Persists(s, SetLeader(s, i, l))
  {
  }

  /** An instance that is not committed is committed nowhere. */
  lemma NotYet(s: System, q: nat, i: InstanceId)
    requires AgreeInv(s) && q < |s.replicas| && i !in s.committed
    ensures i in s.replicas[q].cmds ==> s.replicas[q].cmds[i].state != Committed
  {
    if i in s.replicas[q].cmds {
      assert ReplicaOk(s.committed, s.replicas[q]);
    }
  }

  lemma BeginAgrees(s: System, r: nat, y: Command, epoch: nat)
    requires AgreeInv(s) && r < |s.replicas|
    ensures AgreeInv(DoBegin(s, r, y, epoch)) && Persists(s, DoBegin(s, r, y, epoch))
  {
    var rep := s.replicas[r];
    var i := InstanceId(r, rep.instanceIdx + 1);
    var s1 := s.(replicas := s.replicas[r := rep.(instanceIdx := rep.instanceIdx + 1)]);
    assert i !in s.leaders;
    assert AgreeInv(s1);
    SetAgrees(s1, i, DoBegin(s, r, y, epoch).leaders[i]);
  }

  lemma ProposeAgrees(s: System, i: InstanceId)
    requires AgreeInv(s) && i in s.leaders && s.leaders[i].Reading?
    ensures i.rid < |s.replicas| && AgreeInv(DoPropose(s, i)) && Persists(s, DoPropose(s, i))
  {
    hide AgreeInv, Persists;
    LeaderFacts(s, i);
    var ins := s.leaders[i].ins;
    NotYet(s, i.rid, i);
    StoreAgrees(s, i.rid, ins);
    var s1 := StoreAt(s, i.rid, ins);
    SendAgrees(s1, PreAcceptMsg(Req(ins)));
    var s2 := Send(s1, PreAcceptMsg(Req(ins)));
    var l := Collecting(ins, FirstTally(ins), {}, map[i.rid := |s.logs[i.rid]|]);
    SetAgrees(s2, i, l);
    Together(s, s1, s2);
    Together(s, s2, SetLeader(s2, i, l));
  }

  lemma LeaderFacts(s: System, i: InstanceId)
    requires AgreeInv(s) && i in s.leaders
    ensures Shape(s) && LeaderOk(s, i, s.leaders[i])
  {
  }

  lemma Together(a: System, b: System, c: System)
    requires Persists(a, b) && Persists(b, c)
    ensures Persists(a, c)
  {
  }

  /** Choosing what a so far uncommitted instance is committed as. */
  lemma Committing(s: System, i: InstanceId, a: Attrs)
    requires AgreeInv(s) && i in s.leaders && i !in s.committed
    ensures var s0 := SetLeader(s, i, Finished(true)).(committed := s.committed[i := a]);
      AgreeInv(s0) && Persists(s, s0)
  {
    var s0 := SetLeader(s, i, Finished(true)).(committed := s.committed[i := a]);
    assert Persists(s, s0);
    hide ReplicaOk, Persists;
    forall q | 0 <= q < |s.replicas| ensures ReplicaOk(s0.committed, s0.replicas[q]) {
      RecordKeeps(s.committed, i, a, s.replicas[q]);
    }
  }

  lemma RecordKeeps(committed: map<InstanceId, Attrs>, i: InstanceId, a: Attrs, r: Replica)
    requires ReplicaOk(committed, r) && i !in committed
    ensures ReplicaOk(committed[i := a], r)
  {
  }

  lemma CommitAgrees(s: System, ins: Instance)
    requires AgreeInv(s) && ins.i in s.leaders && ins.i.rid < |s.replicas| && ins.i !in s.committed
    ensures AgreeInv(CommitAt(s, ins)) && Persists(s, CommitAt(s, ins))
  {
    var a := Attrs(ins.y, ins.seqno, ins.deps);
    var s0 := SetLeader(s, ins.i, Finished(true)).(committed := s.committed[ins.i := a]);
    Committing(s, ins.i, a);
    var done := ins.(state := Committed);
    hide AgreeInv, Persists;
    StoreAgrees(s0, ins.i.rid, done);
    var s1 := StoreAt(s0, ins.i.rid, done);
    SendAgrees(s1, CommitMsg(Req(done)));
    Together(s, s0, s1);
    Together(s, s1, Send(s1, CommitMsg(Req(done))));
    assert CommitAt(s, ins) == Send(s1, CommitMsg(Req(done)));
  }

  lemma HandlersAgree(s: System, r: nat, m: Msg)
    requires AgreeInv(s) && r < |s.replicas| && m in s.msgs
    ensures m.PreAcceptMsg? ==> AgreeInv(DoPreAccept(s, r, m.req)) && Persists(s, DoPreAccept(s, r, m.req))
    ensures m.AcceptMsg? ==> AgreeInv(DoAccept(s, r, m.req)) && Persists(s, DoAccept(s, r, m.req))
    ensures m.CommitMsg? ==> AgreeInv(DoCommit(s, r, m.req)) && Persists(s, DoCommit(s, r, m.req))
  {
    assert MsgOk(s, m);
    hide AgreeInv, Persists;
    Unchanged(s);
    if m.PreAcceptMsg? {
      var ins := PreAcceptedAs(s.replicas[r], m.req);
      var s1 := s;
      if !RefusesPreAccept(s.replicas[r], m.req) {
        StoreAgrees(s, r, ins);
        s1 := StoreAt(s, r, ins);
      }
      var reply := PreAcceptReply(m.req.i, r, PreAcceptStep(s.replicas[r], m.req).1, |s.logs[r]|);
      SendAgrees(s1, reply);
      Together(s, s1, Send(s1, reply));
    } else if m.AcceptMsg? {
      var ins := FromReq(m.req, m.req.seqno, m.req.deps, Accepted);
      var s1 := s;
      if !RefusesAccept(s.replicas[r], m.req) {
        StoreAgrees(s, r, ins);
        s1 := StoreAt(s, r, ins);
      }
      var reply := AcceptReply(m.req.i, r, AcceptStep(s.replicas[r], m.req).1);
      SendAgrees(s1, reply);
      Together(s, s1, Send(s1, reply));
    } else if m.CommitMsg? {
      StoreAgrees(s, r, FromReq(m.req, m.req.seqno, m.req.deps, Committed));
    }
  }

  lemma Unchanged(s: System)
    requires AgreeInv(s)
    ensures Persists(s, s) && Shape(s)
  {
  }

  lemma EndPhase1Agrees(s: System, i: InstanceId)
    requires AgreeInv(s) && i in s.leaders && s.leaders[i].Collecting?
    ensures s.leaders[i].ins.i == i && i.rid < |s.replicas|
    ensures AgreeInv(DoEndPhase1(s, i)) && Persists(s, DoEndPhase1(s, i))
  {
    var n, l := |s.replicas|, s.leaders[i];
    var ins, t := Settled(l), l.tally;
    LeaderFacts(s, i);
    var s0 := s.(decided := s.decided[i := Decision(ins.y, ins.seqno, ins.deps, l.counted)]);
    assert AgreeInv(s0) && Persists(s, s0);
    hide AgreeInv, Persists;
    if t.preAccepted >= FastQuorum(n) && !t.isDiff {
      CommitAgrees(s0, ins);
      Together(s, s0, CommitAt(s0, ins));
    } else if t.preAccepted < Majority(n) {
      SetAgrees(s, i, Finished(false));
    } else {
      var acc := ins.(state := Accepted);
      NotYet(s0, i.rid, i);
      StoreAgrees(s0, i.rid, acc);
      var s1 := StoreAt(s0, i.rid, acc);
      SendAgrees(s1, AcceptMsg(Req(acc)));
      var s2 := Send(s1, AcceptMsg(Req(acc)));
      SetAgrees(s2, i, Accepting(acc, 1, {}));
      Together(s, s0, s1);
      Together(s, s1, s2);
      Together(s, s2, SetLeader(s2, i, Accepting(acc, 1, {})));
    }
  }

  /** Every event keeps the invariant and everything committed. */
  lemma StepAgrees(s: System, e: Event)
    requires AgreeInv(s) && Enabled(s, e)
    ensures AgreeInv(Apply(s, e)) && Persists(s, Apply(s, e))
  {
    hide AgreeInv, Persists;
    match e
    case Begin(r, y, epoch) => BeginAgrees(s, r, y, epoch);
    case Propose(i) => ProposeAgrees(s, i);
    case HandlePreAccept(r, m) => HandlersAgree(s, r, m);
    case HandleAccept(r, m) => HandlersAgree(s, r, m);
    case HandleCommit(r, m) => HandlersAgree(s, r, m);
    case EndPhase1(i) => EndPhase1Agrees(s, i);
    case HearPreAccept(i, from, reply) =>
      LeaderFacts(s, i);
      SetAgrees(s, i, DoHear(s, i, from, reply).leaders[i]);
    case HearAccept(i, from, reply) =>
      LeaderFacts(s, i);
      SetAgrees(s, i, DoHearAccept(s, i, from, reply).leaders[i]);
    case EndAccept(i) =>
      LeaderFacts(s, i);
      if s.leaders[i].accepted < Majority(|s.replicas|) {
        SetAgrees(s, i, Finished(false));
      } else {
        CommitAgrees(s, s.leaders[i].ins);
      }
  }

  lemma {:induction false} RunAgrees(run: seq<System>, k: nat)
    requires Run(run) && k < |run|
    ensures AgreeInv(run[k])
  {
    if k > 0 {
      RunAgrees(run, k - 1);
      hide AgreeInv;
      assert Step(run[k - 1], run[k - 1 + 1]);
      var e :| Enabled(run[k - 1], e) && run[k] == Apply(run[k - 1], e);
      StepAgrees(run[k - 1], e);
    }
  }

  lemma {:induction false} RunPersists(run: seq<System>, j: nat, k: nat)
    requires Run(run) && j <= k < |run|
    ensures Persists(run[j], run[k])
    decreases k - j
  {
    hide AgreeInv;
    RunAgrees(run, j);
    if j == k {
      Unchanged(run[j]);
    } else {
      hide Persists;
      assert Step(run[j], run[j + 1]);
      var e :| Enabled(run[j], e) && run[j + 1] == Apply(run[j], e);
      StepAgrees(run[j], e);
      RunPersists(run, j + 1, k);
      Together(run[j], run[j + 1], run[k]);
    }
  }

  lemma CommittedIsDecided(s: System, q: nat, i: InstanceId, a: Attrs)
    requires AgreeInv(s) && CommittedAs(s, q, i, a)
    ensures i in s.committed && s.committed[i] == a
  {
    assert ReplicaOk(s.committed, s.replicas[q]);
  }

  /** Agreement: wherever and whenever an instance is committed in a run, it has the same command, Seq and Deps. */
  lemma Agreement(run: seq<System>, j: nat, q: nat, k: nat, p: nat, i: InstanceId, a: Attrs, b: Attrs)
    requires Run(run) && j < |run| && k < |run|
    requires CommittedAs(run[j], q, i, a) && CommittedAs(run[k], p, i, b)
    ensures a == b
  {
    RunAgrees(run, j);
    RunAgrees(run, k);
    CommittedIsDecided(run[j], q, i, a);
    CommittedIsDecided(run[k], p, i, b);
    if j <= k {
      RunPersists(run, j, k);
    } else {
      RunPersists(run, k, j);
    }
  }

  /** Stability: once committed at a replica, an instance stays committed there, unchanged. */
  lemma Stability(run: seq<System>, j: nat, k: nat, q: nat, i: InstanceId, a: Attrs)
    requires Run(run) && j <= k < |run| && CommittedAs(run[j], q, i, a)
    ensures CommittedAs(run[k], q, i, a)
  {
    hide AgreeInv;
    RunPersists(run, j, k);
    var c := run[k].replicas[q].cmds[i];
    var b := Attrs(c.y, c.seqno, c.deps);
    hide Persists;
    Agreement(run, j, q, k, q, i, a, b);
  }
}
