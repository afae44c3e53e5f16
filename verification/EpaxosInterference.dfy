/** Commands on the same key see each other: what the counted quorums guarantee about dependencies. */
module EpaxosInterference {
  import opened Collections
  import opened EpaxosTypes
  import opened EpaxosReplica
  import opened EpaxosProtocol

  // ---- the interference index and the history of stores -----------------------------------------

  /** Before position b, instance id was stored under key with this sequence number. */
  ghost predicate Origin(log: seq<Entry>, b: nat, key: string, id: InstanceId, seqno: nat) {
    exists p :: 0 <= p < b && p < |log| && log[p].i == id && log[p].y.key == key && log[p].seqno == seqno
  }

  /** The index names, for every key, an instance with the highest sequence number ever stored. */
  ghost predicate IndexOk(root: map<string, KeyDep>, log: seq<Entry>) {
    && (forall p :: 0 <= p < |log| ==> log[p].y.key in root && 1 <= log[p].seqno <= root[log[p].y.key].lastSeq)
    && (forall k :: k in root ==> root[k].lastId.Some? && Origin(log, |log|, k, root[k].lastId.value, root[k].lastSeq))
  }

  /** Every store saw, just before, an instance on its key at least as high as any stored earlier. */
  ghost predicate HistoryOk(log: seq<Entry>) {
    && (forall a, b :: 0 <= a < b < |log| && log[a].y.key == log[b].y.key ==>
      log[b].last.Some? && log[b].last.value.1 >= log[a].seqno)
    && (forall b :: 0 <= b < |log| && log[b].last.Some? ==>
      Origin(log, b, log[b].y.key, log[b].last.value.0, log[b].last.value.1))
  }

  lemma StoreKeepsIndex(r: Replica, log: seq<Entry>, ins: Instance)
    requires IndexOk(r.root, log) && ins.seqno >= 1
    ensures IndexOk(Store(r, ins).root, log + [EntryFor(r, ins)])
  {
    var log', root' := log + [EntryFor(r, ins)], Store(r, ins).root;
    forall k | k in root'
      ensures root'[k].lastId.Some? && Origin(log', |log'|, k, root'[k].lastId.value, root'[k].lastSeq)
    {
      if k == ins.y.key && NewKeyDep(r.root, k).lastSeq < ins.seqno {
        assert log'[|log|].i == ins.i;
      } else {
        var p :| 0 <= p < |log| && log[p].i == r.root[k].lastId.value && log[p].y.key == k &&
          log[p].seqno == r.root[k].lastSeq;
        assert log'[p] == log[p];
      }
    }
  }

  /** Of several stores with the highest sequence number on a key the index names the first. */
  ghost predicate NamesFirst(root: map<string, KeyDep>, log: seq<Entry>) {
    forall k :: k in root ==> exists p :: IsFirst(root[k], log, k, p)
  }

  ghost predicate IsFirst(dep: KeyDep, log: seq<Entry>, key: string, p: nat) {
    && p < |log| && log[p].y.key == key && Some(log[p].i) == dep.lastId && log[p].seqno == dep.lastSeq
    && forall a :: 0 <= a < p && log[a].y.key == key ==> log[a].seqno < log[p].seqno
  }

  /** Only a strictly higher sequence number replaces the one named. */
  lemma StoreKeepsFirst(r: Replica, log: seq<Entry>, ins: Instance)
    requires IndexOk(r.root, log) && NamesFirst(r.root, log) && ins.seqno >= 1
    ensures NamesFirst(Store(r, ins).root, log + [EntryFor(r, ins)])
  {
    var log', root' := log + [EntryFor(r, ins)], Store(r, ins).root;
    forall k | k in root' ensures exists p :: IsFirst(root'[k], log', k, p) {
      if k == ins.y.key && NewKeyDep(r.root, k).lastSeq < ins.seqno {
        assert IsFirst(root'[k], log', k, |log|);
      } else {
        var p :| IsFirst(r.root[k], log, k, p);
        assert IsFirst(root'[k], log', k, p);
      }
    }
  }

  lemma StoreKeepsHistory(r: Replica, log: seq<Entry>, ins: Instance)
    requires IndexOk(r.root, log) && HistoryOk(log)
    ensures HistoryOk(log + [EntryFor(r, ins)])
  {
    var e := EntryFor(r, ins);
    var log' := log + [e];
    forall b | 0 <= b < |log'| && log'[b].last.Some?
      ensures Origin(log', b, log'[b].y.key, log'[b].last.value.0, log'[b].last.value.1)
    {
      assert Origin(log, b, log'[b].y.key, log'[b].last.value.0, log'[b].last.value.1);
      var p :| 0 <= p < b && p < |log| && log[p].i == log'[b].last.value.0 && log[p].y.key == log'[b].y.key &&
        log[p].seqno == log'[b].last.value.1;
      assert log'[p] == log[p];
    }
  }

  // ---- what is counted --------------------------------------------------------------------------

  /** At position `at` replica q stored instance i, and its deps name the newest instance q then knew on the key. */
  ghost predicate Witness(logs: seq<seq<Entry>>, q: nat, at: nat, i: InstanceId, key: string, deps: set<InstanceId>) {
    && q < |logs| && at < |logs[q]|
    && var e := logs[q][at];
       e.i == i && e.y.key == key && e.deps <= deps && (e.last.Some? ==> e.last.value.0 in e.deps)
  }

  ghost predicate CountedOk(logs: seq<seq<Entry>>, i: InstanceId, key: string, deps: set<InstanceId>,
      counted: map<nat, nat>) {
    forall q :: q in counted ==> Witness(logs, q, counted[q], i, key, deps)
  }

  ghost predicate LeaderCounts(logs: seq<seq<Entry>>, i: InstanceId, l: Leader) {
    && (!l.Finished? ==> l.ins.seqno >= 1 && l.ins.i == i)
    && (l.Collecting? ==>
          && |l.counted| == l.tally.preAccepted && l.counted.Keys <= l.heard + {i.rid}
          && i.rid in l.counted && i.rid !in l.heard
          && l.ins.deps <= l.tally.deps && (!l.tally.isDiff ==> l.tally.deps == l.ins.deps) && l.tally.maxSeq >= 1
          && CountedOk(logs, i, l.ins.y.key, l.tally.deps, l.counted))
  }

  /** A positive answer describes a store at its sender, on the leader's key. */
  ghost predicate AnswerOk(l: Leader, logs: seq<seq<Entry>>, i: InstanceId, from: nat, resp: PreAcceptResp, at: nat) {
    && resp.seqno >= 1 && from < |logs| && at < |logs[from]|
    && Witness(logs, from, at, i, logs[from][at].y.key, resp.deps)
    && (l.Collecting? ==> logs[from][at].y.key == l.ins.y.key)
  }

  /** Requests carry positive sequence numbers; an answer comes from a store it describes. */
  ghost predicate MsgCounts(leaders: map<InstanceId, Leader>, logs: seq<seq<Entry>>, m: Msg) {
    match m
    case PreAcceptReply(i, from, resp, at) =>
      && i in leaders && !leaders[i].Reading?
      && (resp.ok ==> AnswerOk(leaders[i], logs, i, from, resp, at))
    case AcceptReply(_, _, resp) => !resp.ok
    case _ =>
      && m.req.seqno >= 1 && m.req.i in leaders && !leaders[m.req.i].Reading?
      && (m.PreAcceptMsg? && leaders[m.req.i].Collecting? ==> m.req.y.key == leaders[m.req.i].ins.y.key)
  }

  ghost predicate DecisionOk(logs: seq<seq<Entry>>, i: InstanceId, d: Decision) {
    && CountedOk(logs, i, d.y.key, d.deps, d.counted)
    && (|logs| % 2 == 1 || |logs| >= 8 ==> |d.counted| >= Majority(|logs|))
  }

  ghost predicate CountInv(s: System) {
    && Shape(s)
    && (forall q :: 0 <= q < |s.logs| ==> IndexOk(s.replicas[q].root, s.logs[q]) && HistoryOk(s.logs[q]))
    && (forall i :: i in s.leaders ==>
      i.rid < |s.logs| && i.index <= s.replicas[i.rid].instanceIdx && LeaderCounts(s.logs, i, s.leaders[i]))
    && (forall m :: m in s.msgs ==> MsgCounts(s.leaders, s.logs, m))
    && (forall i :: i in s.decided ==> DecisionOk(s.logs, i, s.decided[i]))
  }

  /** Logs only grow. */
  ghost predicate LogsGrow(logs: seq<seq<Entry>>, logs': seq<seq<Entry>>) {
    |logs'| == |logs| && forall q :: 0 <= q < |logs| ==> logs[q] <= logs'[q]
  }

  lemma CountedGrows(logs: seq<seq<Entry>>, logs': seq<seq<Entry>>, i: InstanceId, key: string, deps: set<InstanceId>,
      deps': set<InstanceId>, counted: map<nat, nat>)
    requires LogsGrow(logs, logs') && CountedOk(logs, i, key, deps, counted) && deps <= deps'
    ensures CountedOk(logs', i, key, deps', counted)
  {
    forall q | q in counted ensures Witness(logs', q, counted[q], i, key, deps') {
      assert Witness(logs, q, counted[q], i, key, deps);
    }
  }

  lemma MsgGrows(leaders: map<InstanceId, Leader>, logs: seq<seq<Entry>>, logs': seq<seq<Entry>>, m: Msg)
    requires MsgCounts(leaders, logs, m) && LogsGrow(logs, logs')
    ensures MsgCounts(leaders, logs', m)
  {
  }

  lemma StoreCounts(s: System, q: nat, ins: Instance)
    requires CountInv(s) && q < |s.replicas| && ins.seqno >= 1
    ensures CountInv(StoreAt(s, q, ins)) && LogsGrow(s.logs, StoreAt(s, q, ins).logs)
  {
    var s' := StoreAt(s, q, ins);
    hide IndexOk, HistoryOk, LeaderCounts, MsgCounts, DecisionOk, LogsGrow, StoreAt;
    StoreReplicas(s, q, ins);
    forall i | i in s.leaders ensures LeaderCounts(s'.logs, i, s'.leaders[i]) {
      LeaderGrows(s.logs, s'.logs, i, s.leaders[i]);
    }
    forall i | i in s.decided ensures DecisionOk(s'.logs, i, s'.decided[i]) {
      DecisionGrows(s.logs, s'.logs, i, s.decided[i]);
    }
    forall m | m in s.msgs ensures MsgCounts(s'.leaders, s'.logs, m) {
      MsgGrows(s.leaders, s.logs, s'.logs, m);
    }
  }

  /** What a store leaves as it is, and what it keeps of the replicas. */
  lemma StoreReplicas(s: System, q: nat, ins: Instance)
    requires Shape(s) && q < |s.replicas| && ins.seqno >= 1
    requires forall p :: 0 <= p < |s.logs| ==> IndexOk(s.replicas[p].root, s.logs[p]) && HistoryOk(s.logs[p])
    ensures var n := StoreAt(s, q, ins);
      && Shape(n) && |n.replicas| == |s.replicas| && LogsGrow(s.logs, n.logs)
      && n.leaders == s.leaders && n.msgs == s.msgs && n.decided == s.decided
      && (forall p :: 0 <= p < |n.logs| ==> IndexOk(n.replicas[p].root, n.logs[p]) && HistoryOk(n.logs[p]))
      && (forall p :: 0 <= p < |s.replicas| ==> n.replicas[p].instanceIdx == s.replicas[p].instanceIdx)
  {
    assert Store(s.replicas[q], ins).instanceIdx == s.replicas[q].instanceIdx;
    hide IndexOk, HistoryOk, EntryFor, Store;
    StoreKeepsIndex(s.replicas[q], s.logs[q], ins);
    StoreKeepsHistory(s.replicas[q], s.logs[q], ins);
  }

  lemma LeaderGrows(logs: seq<seq<Entry>>, logs': seq<seq<Entry>>, i: InstanceId, l: Leader)
    requires LeaderCounts(logs, i, l) && LogsGrow(logs, logs')
    ensures LeaderCounts(logs', i, l)
  {
    hide CountedOk, LogsGrow;
    if l.Collecting? {
      CountedGrows(logs, logs', i, l.ins.y.key, l.tally.deps, l.tally.deps, l.counted);
    }
  }

  lemma DecisionGrows(logs: seq<seq<Entry>>, logs': seq<seq<Entry>>, i: InstanceId, d: Decision)
    requires DecisionOk(logs, i, d) && LogsGrow(logs, logs')
    ensures DecisionOk(logs', i, d)
  {
    hide CountedOk;
    CountedGrows(logs, logs', i, d.y.key, d.deps, d.deps, d.counted);
  }

  lemma SendCounts(s: System, m: Msg)
    requires CountInv(s) && MsgCounts(s.leaders, s.logs, m)
    ensures CountInv(Send(s, m))
  {
    hide IndexOk, HistoryOk, LeaderCounts, DecisionOk, MsgCounts;
  }

  /** A leader may move on as long as the messages about its instance still fit. */
  ghost predicate MovesOn(s: System, i: InstanceId, l: Leader) {
    if l.Reading? then i !in s.leaders
    else if l.Collecting? then
      i in s.leaders && (s.leaders[i].Reading? || (s.leaders[i].Collecting? && s.leaders[i].ins.y.key == l.ins.y.key))
    else i in s.leaders
  }

  lemma SetCounts(s: System, i: InstanceId, l: Leader)
    requires CountInv(s) && MovesOn(s, i, l) && LeaderCounts(s.logs, i, l)
    requires i.rid < |s.logs| && i.index <= s.replicas[i.rid].instanceIdx
    ensures CountInv(SetLeader(s, i, l))
  {
    hide IndexOk, HistoryOk, LeaderCounts, DecisionOk, Witness;
    var s' := SetLeader(s, i, l);
    forall m | m in s.msgs ensures MsgCounts(s'.leaders, s'.logs, m) {
      assert MsgCounts(s.leaders, s.logs, m);
    }
  }

  lemma DecideCounts(s: System, i: InstanceId, d: Decision)
    requires CountInv(s) && DecisionOk(s.logs, i, d)
    ensures CountInv(s.(decided := s.decided[i := d]))
  {
    hide IndexOk, HistoryOk, LeaderCounts, DecisionOk, MsgCounts;
  }

  lemma LeaderKnown(s: System, i: InstanceId)
    requires CountInv(s) && i in s.leaders
    ensures Shape(s) && i.rid < |s.logs| && i.index <= s.replicas[i.rid].instanceIdx
    ensures LeaderCounts(s.logs, i, s.leaders[i])
  {
    hide IndexOk, HistoryOk, LeaderCounts, DecisionOk, MsgCounts;
  }

  lemma MsgKnown(s: System, m: Msg)
    requires CountInv(s) && m in s.msgs
    ensures Shape(s) && MsgCounts(s.leaders, s.logs, m)
  {
    hide IndexOk, HistoryOk, LeaderCounts, DecisionOk, MsgCounts;
  }

  // ---- every event ------------------------------------------------------------------------------

  /** The attributes the leader read are still what a read would give. */
  ghost predicate Current(s: System, i: InstanceId)
    requires i in s.leaders && s.leaders[i].Reading? && i.rid < |s.replicas|
  {
    var ins := s.leaders[i].ins;
    Interf(s.replicas[i.rid], ins.y.key) == (ins.seqno - 1, ins.deps)
  }

  lemma BeginCounts(s: System, r: nat, y: Command, epoch: nat)
    requires CountInv(s) && r < |s.replicas|
    ensures CountInv(DoBegin(s, r, y, epoch))
  {
    var rep := s.replicas[r];
    var i := InstanceId(r, rep.instanceIdx + 1);
    var s1 := s.(replicas := s.replicas[r := rep.(instanceIdx := rep.instanceIdx + 1)]);
    assert i !in s.leaders;
    hide IndexOk, HistoryOk, DecisionOk, MsgCounts, CountedOk;
    assert CountInv(s1);
    SetCounts(s1, i, DoBegin(s, r, y, epoch).leaders[i]);
  }

  lemma ProposeCounts(s: System, i: InstanceId)
    requires CountInv(s) && i in s.leaders && s.leaders[i].Reading? && i.rid < |s.replicas| && Current(s, i)
    ensures Shape(s) && CountInv(DoPropose(s, i))
  {
    hide CountInv, IndexOk;
    LeaderKnown(s, i);
    var ins := s.leaders[i].ins;
    StoreCounts(s, i.rid, ins);
    var s1 := StoreAt(s, i.rid, ins);
    var at := |s.logs[i.rid]|;
    assert s1.logs[i.rid][at] == EntryFor(s.replicas[i.rid], ins);
    var l := Collecting(ins, FirstTally(ins), {}, map[i.rid := at]);
    assert Witness(s1.logs, i.rid, at, i, ins.y.key, ins.deps);
    SetCounts(s1, i, l);
    var s2 := SetLeader(s1, i, l);
    SendCounts(s2, PreAcceptMsg(Req(ins)));
    assert DoPropose(s, i) == Send(s2, PreAcceptMsg(Req(ins)));
  }

  /** A pre-accepting replica adds the newest instance it knows on the key to the dependencies. */
  lemma PreAcceptWitness(s: System, r: nat, req: PreAcceptReq)
    requires Shape(s) && r < |s.replicas| && req.seqno >= 1 && !RefusesPreAccept(s.replicas[r], req)
    ensures var ins := PreAcceptedAs(s.replicas[r], req);
      && ins.seqno >= 1
      && Witness(StoreAt(s, r, ins).logs, r, |s.logs[r]|, req.i, req.y.key, PreAcceptStep(s.replicas[r], req).1.deps)
  {
    var ins := PreAcceptedAs(s.replicas[r], req);
    assert StoreAt(s, r, ins).logs[r][|s.logs[r]|] == EntryFor(s.replicas[r], ins);
  }

  lemma PreAcceptCounts(s: System, r: nat, m: Msg)
    requires CountInv(s) && r < |s.replicas| && m in s.msgs && m.PreAcceptMsg?
    ensures Shape(s) && CountInv(DoPreAccept(s, r, m.req))
  {
    hide CountInv, Witness, PreAcceptedAs, RefusesPreAccept;
    MsgKnown(s, m);
    var req := m.req;
    var resp := PreAcceptStep(s.replicas[r], req).1;
    var reply := PreAcceptReply(req.i, r, resp, |s.logs[r]|);
    if RefusesPreAccept(s.replicas[r], req) {
      SendCounts(s, reply);
    } else {
      var ins := PreAcceptedAs(s.replicas[r], req);
      PreAcceptWitness(s, r, req);
      StoreCounts(s, r, ins);
      var s1 := StoreAt(s, r, ins);
      AnswerFits(s1, s.leaders[req.i], req.i, r, resp, |s.logs[r]|, req.y.key);
      SendCounts(s1, reply);
    }
  }

  lemma AnswerFits(s: System, l: Leader, i: InstanceId, r: nat, resp: PreAcceptResp, at: nat, key: string)
    requires Witness(s.logs, r, at, i, key, resp.deps) && resp.seqno >= 1 && (l.Collecting? ==> key == l.ins.y.key)
    ensures AnswerOk(l, s.logs, i, r, resp, at)
  {
  }

  lemma AcceptCounts(s: System, r: nat, m: Msg)
    requires CountInv(s) && r < |s.replicas| && m in s.msgs
    ensures Shape(s)
    ensures m.AcceptMsg? ==> CountInv(DoAccept(s, r, m.req))
    ensures m.CommitMsg? ==> CountInv(DoCommit(s, r, m.req))
  {
    hide CountInv;
    MsgKnown(s, m);
    if m.AcceptMsg? {
      var reply := AcceptReply(m.req.i, r, AcceptStep(s.replicas[r], m.req).1);
      if RefusesAccept(s.replicas[r], m.req) {
        SendCounts(s, reply);
      } else {
        var ins := FromReq(m.req, m.req.seqno, m.req.deps, Accepted);
        StoreCounts(s, r, ins);
        SendCounts(StoreAt(s, r, ins), reply);
      }
    } else if m.CommitMsg? {
      StoreCounts(s, r, FromReq(m.req, m.req.seqno, m.req.deps, Committed));
    }
  }

  /** Counting a reply absorbs its dependencies. */
  lemma CountAbsorbs(n: nat, ins: Instance, t: Tally, reply: Option<PreAcceptResp>)
    requires n > 0 && ins.deps <= t.deps && (!t.isDiff ==> t.deps == ins.deps) && t.maxSeq >= 1
    ensures var u := Count(n, ins, t, reply);
      && t.deps <= u.deps && (!u.isDiff ==> u.deps == ins.deps) && u.maxSeq >= 1
      && (if reply.Some? && reply.value.ok
          then u.preAccepted == t.preAccepted + 1 && reply.value.deps <= u.deps
          else u.preAccepted == t.preAccepted && u.deps == t.deps)
  {
  }

  lemma CountOne(logs: seq<seq<Entry>>, i: InstanceId, key: string, deps: set<InstanceId>, counted: map<nat, nat>,
      q: nat, at: nat)
    requires CountedOk(logs, i, key, deps, counted) && Witness(logs, q, at, i, key, deps) && q !in counted
    ensures CountedOk(logs, i, key, deps, counted[q := at]) && |counted[q := at]| == |counted| + 1
    ensures counted[q := at].Keys == counted.Keys + {q}
  {
    assert counted[q := at].Keys == counted.Keys + {q};
    assert |counted[q := at].Keys| == |counted.Keys| + 1;
  }

  lemma WitnessWeaker(l: Leader, logs: seq<seq<Entry>>, i: InstanceId, q: nat, at: nat, resp: PreAcceptResp,
      deps: set<InstanceId>)
    requires l.Collecting? && AnswerOk(l, logs, i, q, resp, at) && resp.deps <= deps
    ensures Witness(logs, q, at, i, l.ins.y.key, deps)
  {
  }

  lemma HearCounts(s: System, i: InstanceId, from: nat, reply: Option<Msg>)
    requires CountInv(s) && Shape(s) && Enabled(s, HearPreAccept(i, from, reply))
    ensures CountInv(DoHear(s, i, from, reply))
  {
    hide CountInv, CountedOk, AnswerOk, Witness, Count;
    LeaderKnown(s, i);
    var l, l' := s.leaders[i], DoHear(s, i, from, reply).leaders[i];
    CountAbsorbs(|s.replicas|, l.ins, l.tally, if reply.None? then None else Some(reply.value.resp));
    CountedGrows(s.logs, s.logs, i, l.ins.y.key, l.tally.deps, l'.tally.deps, l.counted);
    if reply.Some? && reply.value.resp.ok {
      MsgKnown(s, reply.value);
      WitnessWeaker(l, s.logs, i, from, reply.value.at, reply.value.resp, l'.tally.deps);
      CountOne(s.logs, i, l.ins.y.key, l'.tally.deps, l.counted, from, reply.value.at);
    }
    assert LeaderCounts(s.logs, i, l');
    SetCounts(s, i, l');
  }

  lemma EndPhase1Counts(s: System, i: InstanceId)
    requires CountInv(s) && i in s.leaders && s.leaders[i].Collecting?
    ensures Shape(s) && s.leaders[i].ins.i == i && i.rid < |s.replicas|
    ensures CountInv(DoEndPhase1(s, i))
  {
    hide CountInv, CountedOk, Witness;
    LeaderKnown(s, i);
    var n, l := |s.replicas|, s.leaders[i];
    var ins, t := Settled(l), l.tally;
    if n > 1 {
      FastQuorumIsMajority(n);
    }
    if t.preAccepted < Majority(n) && (t.preAccepted < FastQuorum(n) || t.isDiff) {
      SetCounts(s, i, Finished(false));
    } else {
      var d := Decision(ins.y, ins.seqno, ins.deps, l.counted);
      DecideCounts(s, i, d);
      var s0 := s.(decided := s.decided[i := d]);
      if t.preAccepted >= FastQuorum(n) && !t.isDiff {
        CommitCounts(s0, ins);
      } else {
        var acc := ins.(state := Accepted);
        StoreCounts(s0, i.rid, acc);
        var s1 := StoreAt(s0, i.rid, acc);
        SetCounts(s1, i, Accepting(acc, 1, {}));
        var s2 := SetLeader(s1, i, Accepting(acc, 1, {}));
        SendCounts(s2, AcceptMsg(Req(acc)));
        assert DoEndPhase1(s, i) == Send(s2, AcceptMsg(Req(acc)));
      }
    }
  }

  lemma CommitCounts(s: System, ins: Instance)
    requires CountInv(s) && ins.i in s.leaders && ins.i.rid < |s.replicas| && ins.seqno >= 1
    ensures Shape(s) && CountInv(CommitAt(s, ins))
  {
    hide CountInv;
    LeaderKnown(s, ins.i);
    Recommit(s, ins.i, Attrs(ins.y, ins.seqno, ins.deps));
    var s0 := s.(committed := s.committed[ins.i := Attrs(ins.y, ins.seqno, ins.deps)]);
    var done := ins.(state := Committed);
    StoreCounts(s0, ins.i.rid, done);
    var s1 := StoreAt(s0, ins.i.rid, done);
    SetCounts(s1, ins.i, Finished(true));
    var s2 := SetLeader(s1, ins.i, Finished(true));
    SendCounts(s2, CommitMsg(Req(done)));
    assert CommitAt(s, ins) == Send(s2, CommitMsg(Req(done)));
  }

  /** The record of commits plays no part in counting. */
  lemma Recommit(s: System, i: InstanceId, a: Attrs)
    requires CountInv(s)
    ensures CountInv(s.(committed := s.committed[i := a]))
  {
    hide IndexOk, HistoryOk, LeaderCounts, DecisionOk, MsgCounts;
  }

  lemma StepCounts(s: System, e: Event)
    requires CountInv(s) && Shape(s) && Enabled(s, e) && (e.Propose? ==> Current(s, e.i))
    ensures CountInv(Apply(s, e)) && |Apply(s, e).replicas| == |s.replicas|
  {
    hide CountInv;
    match e
    case Begin(r, y, epoch) => BeginCounts(s, r, y, epoch);
    case Propose(i) => ProposeCounts(s, i);
    case HandlePreAccept(r, m) => PreAcceptCounts(s, r, m);
    case HearPreAccept(i, from, reply) => HearCounts(s, i, from, reply);
    case EndPhase1(i) => EndPhase1Counts(s, i);
    case HandleAccept(r, m) => AcceptCounts(s, r, m);
    case HandleCommit(r, m) => AcceptCounts(s, r, m);
    case HearAccept(i, from, reply) =>
      LeaderKnown(s, i);
      SetCounts(s, i, DoHearAccept(s, i, from, reply).leaders[i]);
    case EndAccept(i) =>
      LeaderKnown(s, i);
      if s.leaders[i].accepted < Majority(|s.replicas|) {
        SetCounts(s, i, Finished(false));
      } else {
        CommitCounts(s, s.leaders[i].ins);
      }
  }

  // ---- runs -------------------------------------------------------------------------------------

  /** Runs in which no store on the key comes between a leader's attribute read and its own first store. */
  ghost predicate AtomicRun(run: seq<System>) {
    && |run| > 0 && InitState(run[0])
    && forall k :: 0 <= k < |run| - 1 ==> AtomicStep(run[k], run[k + 1])
  }

  ghost predicate AtomicStep(s: System, s': System) {
    Shape(s) && exists e :: Enabled(s, e) && (e.Propose? ==> Current(s, e.i)) && s' == Apply(s, e)
  }

  lemma {:induction false} RunCounts(run: seq<System>, k: nat)
    requires AtomicRun(run) && k < |run|
    ensures CountInv(run[k])
  {
    if k > 0 {
      RunCounts(run, k - 1);
      hide CountInv;
      assert AtomicStep(run[k - 1], run[k - 1 + 1]);
      var e :| Enabled(run[k - 1], e) && (e.Propose? ==> Current(run[k - 1], e.i)) && run[k] == Apply(run[k - 1], e);
      StepCounts(run[k - 1], e);
    }
  }

  /** Two sets of more than half of n replicas share one. */
  lemma MajoritiesMeet(n: nat, a: set<nat>, b: set<nat>) returns (q: nat)
    requires (forall x :: x in a ==> x < n) && (forall x :: x in b ==> x < n)
    requires |a| >= Majority(n) && |b| >= Majority(n)
    ensures q in a && q in b
  {
    var all := Upto(n);
    if a * b == {} {
      assert |a + b| == |a| + |b|;
      assert a + b <= all;
      SubsetSize(a + b, all);
      assert false;
    }
    q :| q in a * b;
  }

  ghost function Upto(n: nat): (r: set<nat>)
    ensures |r| == n && forall x: nat :: x in r <==> x < n
  {
    if n == 0 then {} else Upto(n - 1) + {n - 1}
  }

  lemma {:induction false} SubsetSize<T>(a: set<T>, b: set<T>)
    requires a <= b
    ensures |a| <= |b|
    decreases a
  {
    if a != {} {
      var x :| x in a;
      SubsetSize(a - {x}, b - {x});
      assert |a| == |a - {x}| + 1 && |b| == |b - {x}| + 1;
    }
  }

  /** Replica q was counted for both, stored i first, and the decision on j depends on the newest instance on the key
      that q knew when it stored j, which q had recorded with at least the Seq it recorded for i. */
  ghost predicate Sees(s: System, q: nat, i: InstanceId, j: InstanceId)
    requires i in s.decided && j in s.decided
  {
    var di, dj := s.decided[i], s.decided[j];
    && q < |s.logs| && q in di.counted && q in dj.counted
    && di.counted[q] < dj.counted[q] < |s.logs[q]|
    && var ei, ej := s.logs[q][di.counted[q]], s.logs[q][dj.counted[q]];
       && ei.i == i && ej.i == j && ei.y.key == ej.y.key == dj.y.key
       && ej.last.Some? && ej.last.value.0 in dj.deps && ej.last.value.1 >= ei.seqno
       && Origin(s.logs[q], dj.counted[q], ej.y.key, ej.last.value.0, ej.last.value.1)
  }

  lemma SeesAt(s: System, q: nat, i: InstanceId, j: InstanceId)
    requires CountInv(s) && i in s.decided && j in s.decided && s.decided[i].y.key == s.decided[j].y.key
    requires q in s.decided[i].counted && q in s.decided[j].counted && s.decided[i].counted[q] < s.decided[j].counted[q]
    ensures Sees(s, q, i, j)
  {
    hide IndexOk, LeaderCounts, MsgCounts, Origin;
    assert DecisionOk(s.logs, i, s.decided[i]) && DecisionOk(s.logs, j, s.decided[j]);
    assert HistoryOk(s.logs[q]);
  }

  /** Interference: of any two commands on a key that phase 1 decided, one sees the other. */
  lemma Interference(run: seq<System>, k: nat, i: InstanceId, j: InstanceId)
    requires AtomicRun(run) && k < |run| && (|run[k].replicas| % 2 == 1 || |run[k].replicas| >= 8)
    requires i != j && i in run[k].decided && j in run[k].decided && run[k].decided[i].y.key == run[k].decided[j].y.key
    ensures exists q :: Sees(run[k], q, i, j) || Sees(run[k], q, j, i)
  {
    RunCounts(run, k);
    var s := run[k];
    var di, dj := s.decided[i], s.decided[j];
    assert DecisionOk(s.logs, i, di) && DecisionOk(s.logs, j, dj);
    hide CountInv, Sees;
    var q := MajoritiesMeet(|s.logs|, di.counted.Keys, dj.counted.Keys);
    assert Witness(s.logs, q, di.counted[q], i, di.y.key, di.deps) &&
      Witness(s.logs, q, dj.counted[q], j, dj.y.key, dj.deps);
    if di.counted[q] < dj.counted[q] {
      SeesAt(s, q, i, j);
    } else {
      assert di.counted[q] != dj.counted[q];
      SeesAt(s, q, j, i);
    }
  }
}
