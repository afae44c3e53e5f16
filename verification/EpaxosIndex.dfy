/** What the index of every replica says about its stores, in every run. */
module EpaxosIndex {
  import opened Collections
  import opened EpaxosTypes
  import opened EpaxosReplica
  import opened EpaxosProtocol
  import opened EpaxosInterference

  /** The first of the writes with the highest sequence number on a key. */
  ghost predicate IsFirstWrite(dep: KeyDep, log: seq<Entry>, key: string, p: nat) {
    && p < |log| && OnWrite(log[p], key) && Some(log[p].i) == dep.wId && log[p].seqno == dep.wSeq
    && (forall a :: 0 <= a < |log| && OnWrite(log[a], key) ==> log[a].seqno <= dep.wSeq)
    && (forall a :: 0 <= a < p && OnWrite(log[a], key) ==> log[a].seqno < dep.wSeq)
  }

  predicate OnWrite(e: Entry, key: string) {
    e.y.key == key && e.y.op == W
  }

  /** The index also names the first of the highest writes on each key, or none if there was no write. */
  ghost predicate NamesWrite(root: map<string, KeyDep>, log: seq<Entry>) {
    forall k :: k in root ==> WriteNamed(root[k], log, k)
  }

  ghost predicate WriteNamed(dep: KeyDep, log: seq<Entry>, key: string) {
    if dep.wId.None? then dep.wSeq == 0 && forall a :: 0 <= a < |log| ==> !OnWrite(log[a], key)
    else exists p :: IsFirstWrite(dep, log, key, p)
  }

  lemma StoreKeepsWrite(r: Replica, log: seq<Entry>, ins: Instance)
    requires IndexOk(r.root, log) && NamesWrite(r.root, log) && ins.seqno >= 1
    ensures NamesWrite(Store(r, ins).root, log + [EntryFor(r, ins)])
  {
    var log', root' := log + [EntryFor(r, ins)], Store(r, ins).root;
    forall k | k in root'
      ensures WriteNamed(root'[k], log', k)
    {
      assert k !in r.root ==> forall a :: 0 <= a < |log| ==> !OnWrite(log[a], k);
      assert k in r.root ==> WriteNamed(r.root[k], log, k);
      hide IndexOk, NamesWrite;
      if k == ins.y.key {
        TouchWrites(NewKeyDep(r.root, k), log, k, EntryFor(r, ins), ins);
      } else {
        OtherKey(r.root[k], log, k, EntryFor(r, ins));
      }
    }
  }

  lemma TouchWrites(dep: KeyDep, log: seq<Entry>, key: string, e: Entry, ins: Instance)
    requires WriteNamed(dep, log, key) && ins.seqno >= 1 && ins.y.key == key
    requires e.y == ins.y && e.i == ins.i && e.seqno == ins.seqno
    ensures WriteNamed(Touch(dep, ins), log + [e], key)
  {
    var log', dep' := log + [e], Touch(dep, ins);
    if ins.y.op == W && dep.wSeq < ins.seqno {
      assert IsFirstWrite(dep', log', key, |log|);
    } else if dep.wId.Some? {
      var p :| IsFirstWrite(dep, log, key, p);
      assert IsFirstWrite(dep', log', key, p);
    }
  }

  lemma OtherKey(dep: KeyDep, log: seq<Entry>, key: string, e: Entry)
    requires WriteNamed(dep, log, key) && e.y.key != key
    ensures WriteNamed(dep, log + [e], key)
  {
    if dep.wId.Some? {
      var p :| IsFirstWrite(dep, log, key, p);
      assert IsFirstWrite(dep, log + [e], key, p);
    }
  }

  /** The index names the first of the stores with the highest sequence number on each key, and every store saw one. */
  ghost predicate Indexed(r: Replica, log: seq<Entry>) {
    IndexOk(r.root, log) && NamesFirst(r.root, log) && NamesWrite(r.root, log) && HistoryOk(log)
  }

  ghost predicate LeaderPositive(l: Leader) {
    (!l.Finished? ==> l.ins.seqno >= 1) && (l.Collecting? ==> l.ins.deps <= l.tally.deps && l.tally.maxSeq >= 1) &&
      (l.Collecting? && !l.tally.isDiff ==> l.tally.deps == l.ins.deps)
  }

  ghost predicate MsgPositive(m: Msg) {
    m.PreAcceptReply? || m.AcceptReply? || m.req.seqno >= 1
  }

  /** Sequence numbers that are stored or under way are positive. */
  ghost predicate IndexInv(s: System) {
    && Shape(s)
    && (forall q :: 0 <= q < |s.logs| ==> Indexed(s.replicas[q], s.logs[q]))
    && (forall i :: i in s.leaders ==> LeaderPositive(s.leaders[i]))
    && (forall m :: m in s.msgs ==> MsgPositive(m))
  }

  lemma StoreIndexed(s: System, q: nat, ins: Instance)
    requires IndexInv(s) && q < |s.replicas| && ins.seqno >= 1
    ensures IndexInv(StoreAt(s, q, ins))
  {
    hide Indexed, EntryFor, LeaderPositive, MsgPositive;
    StoreKeepsAll(s.replicas[q], s.logs[q], ins);
  }

  lemma StoreKeepsAll(r: Replica, log: seq<Entry>, ins: Instance)
    requires Indexed(r, log) && ins.seqno >= 1
    ensures Indexed(Store(r, ins), log + [EntryFor(r, ins)])
  {
    hide IndexOk, NamesFirst, NamesWrite, HistoryOk, Store, EntryFor;
    StoreKeepsIndex(r, log, ins);
    StoreKeepsWrite(r, log, ins);
    StoreKeepsFirst(r, log, ins);
    StoreKeepsHistory(r, log, ins);
  }

  lemma SendIndexed(s: System, m: Msg)
    requires IndexInv(s) && MsgPositive(m)
    ensures IndexInv(Send(s, m))
  {
    hide Indexed, LeaderPositive, MsgPositive;
  }

  lemma SetIndexed(s: System, i: InstanceId, l: Leader)
    requires IndexInv(s) && LeaderPositive(l)
    ensures IndexInv(SetLeader(s, i, l))
  {
    hide Indexed, LeaderPositive, MsgPositive;
  }

  lemma KnownPositive(s: System, i: InstanceId)
    requires IndexInv(s) && i in s.leaders
    ensures Shape(s) && LeaderPositive(s.leaders[i])
  {
    hide Indexed, LeaderPositive, MsgPositive;
  }

  lemma SentPositive(s: System, m: Msg)
    requires IndexInv(s) && m in s.msgs
    ensures Shape(s) && MsgPositive(m)
  {
    hide Indexed, LeaderPositive, MsgPositive;
  }

  /** A store, a message and a new phase of its leader. */
  lemma Advance(s: System, q: nat, ins: Instance, m: Msg, i: InstanceId, l: Leader)
    requires IndexInv(s) && q < |s.replicas| && ins.seqno >= 1 && MsgPositive(m) && LeaderPositive(l)
    ensures Shape(s) && IndexInv(SetLeader(Send(StoreAt(s, q, ins), m), i, l))
  {
    assert Shape(s);
    hide *;
    StoreIndexed(s, q, ins);
    SendIndexed(StoreAt(s, q, ins), m);
    SetIndexed(Send(StoreAt(s, q, ins), m), i, l);
  }

  /** What the phases record beside leaders, messages and replicas plays no part. */
  lemma Recorded(s: System, decided: map<InstanceId, Decision>, committed: map<InstanceId, Attrs>)
    requires IndexInv(s)
    ensures IndexInv(s.(decided := decided, committed := committed))
  {
    hide Indexed, LeaderPositive, MsgPositive;
  }

  lemma BeginIndexed(s: System, r: nat, y: Command, epoch: nat)
    requires IndexInv(s) && r < |s.replicas|
    ensures IndexInv(DoBegin(s, r, y, epoch))
  {
    var rep := s.replicas[r];
    var s1 := s.(replicas := s.replicas[r := rep.(instanceIdx := rep.instanceIdx + 1)]);
    hide IndexOk, NamesFirst, NamesWrite, HistoryOk, MsgPositive;
    assert IndexInv(s1);
    hide IndexInv;
    var i := InstanceId(r, rep.instanceIdx + 1);
    SetIndexed(s1, i, DoBegin(s, r, y, epoch).leaders[i]);
  }

  lemma ProposeIndexed(s: System, i: InstanceId)
    requires IndexInv(s) && i in s.leaders && s.leaders[i].Reading? && i.rid < |s.replicas|
    ensures Shape(s) && IndexInv(DoPropose(s, i))
  {
    hide IndexInv;
    KnownPositive(s, i);
    var ins := s.leaders[i].ins;
    Advance(s, i.rid, ins, PreAcceptMsg(Req(ins)), i,
            Collecting(ins, FirstTally(ins), {}, map[i.rid := |s.logs[i.rid]|]));
  }

  lemma HandleIndexed(s: System, r: nat, m: Msg)
    requires IndexInv(s) && r < |s.replicas| && m in s.msgs
    ensures Shape(s)
    ensures m.PreAcceptMsg? ==> IndexInv(DoPreAccept(s, r, m.req))
    ensures m.AcceptMsg? ==> IndexInv(DoAccept(s, r, m.req))
    ensures m.CommitMsg? ==> IndexInv(DoCommit(s, r, m.req))
  {
    hide IndexInv;
    SentPositive(s, m);
    if m.PreAcceptMsg? {
      PreAcceptIndexed(s, r, m.req);
    } else if m.AcceptMsg? {
      AcceptIndexed(s, r, m.req);
    } else if m.CommitMsg? {
      StoreIndexed(s, r, FromReq(m.req, m.req.seqno, m.req.deps, Committed));
    }
  }

  lemma PreAcceptIndexed(s: System, r: nat, req: PreAcceptReq)
    requires IndexInv(s) && Shape(s) && r < |s.replicas| && req.seqno >= 1
    ensures IndexInv(DoPreAccept(s, r, req))
  {
    hide IndexInv, RefusesPreAccept;
    var reply := PreAcceptReply(req.i, r, PreAcceptStep(s.replicas[r], req).1, |s.logs[r]|);
    if RefusesPreAccept(s.replicas[r], req) {
      SendIndexed(s, reply);
    } else {
      var ins := PreAcceptedAs(s.replicas[r], req);
      StoreIndexed(s, r, ins);
      SendIndexed(StoreAt(s, r, ins), reply);
    }
  }

  lemma AcceptIndexed(s: System, r: nat, req: PreAcceptReq)
    requires IndexInv(s) && Shape(s) && r < |s.replicas| && req.seqno >= 1
    ensures IndexInv(DoAccept(s, r, req))
  {
    hide IndexInv, RefusesAccept;
    var reply := AcceptReply(req.i, r, AcceptStep(s.replicas[r], req).1);
    if RefusesAccept(s.replicas[r], req) {
      SendIndexed(s, reply);
    } else {
      var ins := FromReq(req, req.seqno, req.deps, Accepted);
      StoreIndexed(s, r, ins);
      SendIndexed(StoreAt(s, r, ins), reply);
    }
  }

  lemma HearIndexed(s: System, i: InstanceId, from: nat, reply: Option<Msg>)
    requires IndexInv(s) && Shape(s) && Enabled(s, HearPreAccept(i, from, reply))
    ensures IndexInv(DoHear(s, i, from, reply))
  {
    hide IndexInv, Count;
    KnownPositive(s, i);
    var l := s.leaders[i];
    CountAbsorbs(|s.replicas|, l.ins, l.tally, if reply.None? then None else Some(reply.value.resp));
    SetIndexed(s, i, DoHear(s, i, from, reply).leaders[i]);
  }

  lemma CommitIndexed(s: System, ins: Instance)
    requires IndexInv(s) && ins.i.rid < |s.replicas| && ins.seqno >= 1
    ensures Shape(s) && IndexInv(CommitAt(s, ins))
  {
    assert Shape(s);
    hide IndexInv;
    var done := ins.(state := Committed);
    Advance(s, ins.i.rid, done, CommitMsg(Req(done)), ins.i, Finished(true));
    var s1 := SetLeader(Send(StoreAt(s, ins.i.rid, done), CommitMsg(Req(done))), ins.i, Finished(true));
    Recorded(s1, s1.decided, s.committed[ins.i := Attrs(ins.y, ins.seqno, ins.deps)]);
  }

  lemma EndPhase1Indexed(s: System, i: InstanceId)
    requires IndexInv(s) && Shape(s) && Enabled(s, EndPhase1(i))
    ensures IndexInv(DoEndPhase1(s, i))
  {
    hide IndexInv;
    KnownPositive(s, i);
    var n, l := |s.replicas|, s.leaders[i];
    var ins, t := Settled(l), l.tally;
    var s0 := s.(decided := s.decided[i := Decision(ins.y, ins.seqno, ins.deps, l.counted)]);
    Recorded(s, s0.decided, s.committed);
    if t.preAccepted >= FastQuorum(n) && !t.isDiff {
      CommitIndexed(s0, ins);
    } else if t.preAccepted < Majority(n) {
      SetIndexed(s, i, Finished(false));
    } else {
      var acc := ins.(state := Accepted);
      Advance(s0, i.rid, acc, AcceptMsg(Req(acc)), i, Accepting(acc, 1, {}));
    }
  }

  lemma EndAcceptIndexed(s: System, i: InstanceId)
    requires IndexInv(s) && Shape(s) && Enabled(s, EndAccept(i))
    ensures IndexInv(DoEndAccept(s, i))
  {
    hide IndexInv;
    KnownPositive(s, i);
    if s.leaders[i].accepted < Majority(|s.replicas|) {
      SetIndexed(s, i, Finished(false));
    } else {
      CommitIndexed(s, s.leaders[i].ins);
    }
  }

  lemma StepIndexed(s: System, e: Event)
    requires IndexInv(s) && Shape(s) && Enabled(s, e)
    ensures IndexInv(Apply(s, e))
  {
    hide IndexInv;
    match e
    case Begin(r, y, epoch) => BeginIndexed(s, r, y, epoch);
    case Propose(i) => ProposeIndexed(s, i);
    case HandlePreAccept(r, m) => HandleIndexed(s, r, m);
    case HearPreAccept(i, from, reply) => HearIndexed(s, i, from, reply);
    case EndPhase1(i) => EndPhase1Indexed(s, i);
    case HandleAccept(r, m) => HandleIndexed(s, r, m);
    case HandleCommit(r, m) => HandleIndexed(s, r, m);
    case HearAccept(i, from, reply) =>
      KnownPositive(s, i);
      SetIndexed(s, i, DoHearAccept(s, i, from, reply).leaders[i]);
    case EndAccept(i) => EndAcceptIndexed(s, i);
  }

  lemma {:induction false} RunIndexed(run: seq<System>, k: nat)
    requires Run(run) && k < |run|
    ensures IndexInv(run[k])
  {
    if k > 0 {
      RunIndexed(run, k - 1);
      hide IndexInv, Enabled, Apply;
      assert Step(run[k - 1], run[k - 1 + 1]);
      var e :| Enabled(run[k - 1], e) && run[k] == Apply(run[k - 1], e);
      StepIndexed(run[k - 1], e);
    }
  }

  /**
   * In every state of every run the index of every replica names, for each key it has stored, the first of the stores
   * with the highest sequence number, and the first of the writes with the highest; only stored keys are in it.
   */
  lemma IndexInEveryRun(run: seq<System>, k: nat, q: nat)
    requires Run(run) && k < |run| && q < |run[k].replicas|
    ensures |run[k].logs| == |run[k].replicas|
    ensures IndexOk(run[k].replicas[q].root, run[k].logs[q]) && NamesFirst(run[k].replicas[q].root, run[k].logs[q])
    ensures NamesWrite(run[k].replicas[q].root, run[k].logs[q]) && HistoryOk(run[k].logs[q])
  {
    hide Run, IndexOk, NamesFirst, NamesWrite, HistoryOk;
    RunIndexed(run, k);
  }
}
