/** With two or more replicas only the fast path ever commits, because no acceptance is answered positively. */
module EpaxosFastPath {
  import opened EpaxosTypes
  import opened EpaxosReplica
  import opened EpaxosProtocol

  ghost predicate LeaderFast(s: System, i: InstanceId, l: Leader) {
    && (l.Accepting? ==> l.accepted == 1)
    && (!l.Finished? ==> l.ins.i == i && i !in s.committed)
    && (l.Collecting? && !l.tally.isDiff ==> l.tally.maxSeq == l.ins.seqno)
  }

  /** What an instance is committed with is what its leader first proposed. */
  ghost predicate MsgFast(s: System, m: Msg) {
    match m
    case AcceptReply(_, _, resp) => !resp.ok
    case PreAcceptMsg(req) =>
      && req.i in s.leaders && !s.leaders[req.i].Reading?
      && (s.leaders[req.i].Collecting? ==> req == Req(s.leaders[req.i].ins))
      && (req.i in s.committed ==> s.committed[req.i] == Attrs(req.y, req.seqno, req.deps))
    case _ => true
  }

  ghost predicate FastInv(s: System) {
    && Shape(s) && |s.replicas| >= 2
    && (forall i :: i in s.committed ==> i in s.leaders)
    && (forall i :: i in s.leaders ==>
      i.rid < |s.replicas| && i.index <= s.replicas[i.rid].instanceIdx && LeaderFast(s, i, s.leaders[i]))
    && (forall m :: m in s.msgs ==> MsgFast(s, m))
  }

  lemma StoreFast(s: System, q: nat, ins: Instance)
    requires FastInv(s) && q < |s.replicas|
    ensures FastInv(StoreAt(s, q, ins))
  {
  }

  lemma SendFast(s: System, m: Msg)
    requires FastInv(s) && MsgFast(s, m)
    ensures FastInv(Send(s, m))
  {
  }

  lemma SetFast(s: System, i: InstanceId, l: Leader)
    requires FastInv(s) && LeaderFast(s, i, l) && i.rid < |s.replicas| && i.index <= s.replicas[i.rid].instanceIdx
    requires if i !in s.leaders then l.Reading?
             else !l.Reading? && (l.Collecting? ==>
               s.leaders[i].Reading? || (s.leaders[i].Collecting? && l.ins == s.leaders[i].ins))
    ensures FastInv(SetLeader(s, i, l))
  {
    var s' := SetLeader(s, i, l);
    forall m | m in s.msgs ensures MsgFast(s', m) {
      assert MsgFast(s, m);
    }
  }

  lemma BeginFast(s: System, r: nat, y: Command, epoch: nat)
    requires FastInv(s) && r < |s.replicas|
    ensures FastInv(DoBegin(s, r, y, epoch))
  {
    var rep := s.replicas[r];
    var i := InstanceId(r, rep.instanceIdx + 1);
    var s1 := s.(replicas := s.replicas[r := rep.(instanceIdx := rep.instanceIdx + 1)]);
    assert i !in s.leaders;
    assert FastInv(s1);
    hide FastInv;
    SetFast(s1, i, DoBegin(s, r, y, epoch).leaders[i]);
  }

  lemma LeaderKnown(s: System, i: InstanceId)
    requires FastInv(s) && i in s.leaders
    ensures Shape(s) && |s.replicas| >= 2 && i.rid < |s.replicas| && i.index <= s.replicas[i.rid].instanceIdx
    ensures LeaderFast(s, i, s.leaders[i])
  {
  }

  lemma ProposeFast(s: System, i: InstanceId)
    requires FastInv(s) && i in s.leaders && s.leaders[i].Reading?
    ensures Shape(s) && i.rid < |s.replicas| && FastInv(DoPropose(s, i))
  {
    hide FastInv;
    LeaderKnown(s, i);
    var ins := s.leaders[i].ins;
    StoreFast(s, i.rid, ins);
    var s1 := StoreAt(s, i.rid, ins);
    var l := Collecting(ins, FirstTally(ins), {}, map[i.rid := |s.logs[i.rid]|]);
    SetFast(s1, i, l);
    var s2 := SetLeader(s1, i, l);
    SendFast(s2, PreAcceptMsg(Req(ins)));
    assert DoPropose(s, i) == Send(s2, PreAcceptMsg(Req(ins)));
  }

  /** A fast commit keeps the attributes the leader proposed. */
  /** The leader is done and its attributes are on record. */
  lemma FinishFast(s: System, i: InstanceId)
    requires FastInv(s) && i in s.leaders && s.leaders[i].Collecting? && !s.leaders[i].tally.isDiff
    ensures var ins := Settled(s.leaders[i]);
      FastInv(SetLeader(s, i, Finished(true)).(committed := s.committed[i := Attrs(ins.y, ins.seqno, ins.deps)]))
  {
    var ins := Settled(s.leaders[i]);
    var s0 := SetLeader(s, i, Finished(true)).(committed := s.committed[i := Attrs(ins.y, ins.seqno, ins.deps)]);
    forall m | m in s0.msgs ensures MsgFast(s0, m) {
      assert MsgFast(s, m);
    }
  }

  lemma CommitFast(s: System, i: InstanceId)
    requires FastInv(s) && i in s.leaders && s.leaders[i].Collecting? && !s.leaders[i].tally.isDiff
    ensures Shape(s) && i.rid < |s.replicas|
    ensures var ins := Settled(s.leaders[i]); ins.i == i && FastInv(CommitAt(s, ins))
  {
    hide FastInv;
    LeaderKnown(s, i);
    FinishFast(s, i);
    var ins := Settled(s.leaders[i]);
    var a := Attrs(ins.y, ins.seqno, ins.deps);
    var s0 := SetLeader(s, i, Finished(true)).(committed := s.committed[i := a]);
    var done := ins.(state := Committed);
    StoreFast(s0, i.rid, done);
    SendFast(StoreAt(s0, i.rid, done), CommitMsg(Req(done)));
    assert CommitAt(s, ins) == Send(StoreAt(s0, i.rid, done), CommitMsg(Req(done)));
  }

  lemma EndPhase1Fast(s: System, i: InstanceId)
    requires FastInv(s) && i in s.leaders && s.leaders[i].Collecting?
    ensures Shape(s) && i.rid < |s.replicas| && s.leaders[i].ins.i == i && FastInv(DoEndPhase1(s, i))
  {
    hide FastInv;
    LeaderKnown(s, i);
    var n, l := |s.replicas|, s.leaders[i];
    var ins, t := Settled(l), l.tally;
    var d := Decision(ins.y, ins.seqno, ins.deps, l.counted);
    Redecide(s, i, d);
    var s0 := s.(decided := s.decided[i := d]);
    if t.preAccepted >= FastQuorum(n) && !t.isDiff {
      CommitFast(s0, i);
    } else if t.preAccepted < Majority(n) {
      SetFast(s, i, Finished(false));
    } else {
      var acc := ins.(state := Accepted);
      StoreFast(s0, i.rid, acc);
      var s1 := StoreAt(s0, i.rid, acc);
      SetFast(s1, i, Accepting(acc, 1, {}));
      var s2 := SetLeader(s1, i, Accepting(acc, 1, {}));
      SendFast(s2, AcceptMsg(Req(acc)));
      assert DoEndPhase1(s, i) == Send(s2, AcceptMsg(Req(acc)));
    }
  }

  lemma Redecide(s: System, i: InstanceId, d: Decision)
    requires FastInv(s)
    ensures FastInv(s.(decided := s.decided[i := d]))
  {
  }

  lemma HandlersFast(s: System, r: nat, m: Msg)
    requires FastInv(s) && r < |s.replicas| && m in s.msgs
    ensures Shape(s)
    ensures m.PreAcceptMsg? ==> FastInv(DoPreAccept(s, r, m.req))
    ensures m.AcceptMsg? ==> FastInv(DoAccept(s, r, m.req))
    ensures m.CommitMsg? ==> FastInv(DoCommit(s, r, m.req))
  {
    assert Shape(s);
    hide FastInv;
    if m.PreAcceptMsg? {
      var ins := PreAcceptedAs(s.replicas[r], m.req);
      StoreFast(s, r, ins);
      var reply := PreAcceptReply(m.req.i, r, PreAcceptStep(s.replicas[r], m.req).1, |s.logs[r]|);
      SendFast(s, reply);
      SendFast(StoreAt(s, r, ins), reply);
    } else if m.AcceptMsg? {
      var ins := FromReq(m.req, m.req.seqno, m.req.deps, Accepted);
      StoreFast(s, r, ins);
      var reply := AcceptReply(m.req.i, r, AcceptStep(s.replicas[r], m.req).1);
      SendFast(s, reply);
      SendFast(StoreAt(s, r, ins), reply);
    } else if m.CommitMsg? {
      StoreFast(s, r, FromReq(m.req, m.req.seqno, m.req.deps, Committed));
    }
  }

  lemma NoPositiveAccept(s: System, m: Msg)
    requires FastInv(s) && m in s.msgs && m.AcceptReply?
    ensures !m.aresp.ok
  {
    assert MsgFast(s, m);
  }

  lemma StepFast(s: System, e: Event)
    requires FastInv(s) && Shape(s) && Enabled(s, e)
    ensures FastInv(Apply(s, e))
    ensures e.EndAccept? ==> Apply(s, e).leaders[e.i] == Finished(false) && Apply(s, e).committed == s.committed
  {
    hide FastInv;
    match e
    case Begin(r, y, epoch) => BeginFast(s, r, y, epoch);
    case Propose(i) => ProposeFast(s, i);
    case HandlePreAccept(r, m) => HandlersFast(s, r, m);
    case HandleAccept(r, m) => HandlersFast(s, r, m);
    case HandleCommit(r, m) => HandlersFast(s, r, m);
    case EndPhase1(i) => EndPhase1Fast(s, i);
    case HearPreAccept(i, from, reply) =>
      LeaderKnown(s, i);
      SetFast(s, i, DoHear(s, i, from, reply).leaders[i]);
    case HearAccept(i, from, reply) =>
      LeaderKnown(s, i);
      if reply.Some? {
        NoPositiveAccept(s, reply.value);
      }
      SetFast(s, i, DoHearAccept(s, i, from, reply).leaders[i]);
    case EndAccept(i) =>
      LeaderKnown(s, i);
      SetFast(s, i, Finished(false));
  }

  lemma {:induction false} RunFast(run: seq<System>, k: nat)
    requires Run(run) && k < |run| && |run[0].replicas| >= 2
    ensures FastInv(run[k])
  {
    if k > 0 {
      RunFast(run, k - 1);
      hide FastInv;
      assert Step(run[k - 1], run[k - 1 + 1]);
      var e :| Enabled(run[k - 1], e) && run[k] == Apply(run[k - 1], e);
      StepFast(run[k - 1], e);
    }
  }

  /** In every run, what an instance is committed with equals what its leader put in its pre-accept request. */
  lemma CommittedAsProposed(run: seq<System>, k: nat, req: PreAcceptReq)
    requires Run(run) && k < |run| && |run[0].replicas| >= 2
    requires PreAcceptMsg(req) in run[k].msgs && req.i in run[k].committed
    ensures run[k].committed[req.i] == Attrs(req.y, req.seqno, req.deps)
  {
    RunFast(run, k);
    assert MsgFast(run[k], PreAcceptMsg(req));
  }

  /** In every run, the slow path ends without committing. */
  lemma SlowPathFails(run: seq<System>, k: nat, i: InstanceId)
    requires Run(run) && k < |run| && |run[0].replicas| >= 2
    requires Shape(run[k]) && Enabled(run[k], EndAccept(i))
    ensures Apply(run[k], EndAccept(i)).leaders[i] == Finished(false)
    ensures Apply(run[k], EndAccept(i)).committed == run[k].committed
  {
    RunFast(run, k);
    hide FastInv;
    StepFast(run[k], EndAccept(i));
  }
}
