/** Where the Seq and Deps of every store, answer and decision of a run come from. */
module EpaxosAttributes {
  import opened Collections
  import opened EpaxosTypes
  import opened EpaxosReplica
  import opened EpaxosProtocol
  import opened EpaxosInterference
  import opened EpaxosIndex

  // ---- what a store must look like --------------------------------------------------------------

  /** Of the stores on a key before position b, p is the first of those with the highest Seq. */
  ghost predicate Newest(log: seq<Entry>, b: nat, key: string, p: nat) {
    && p < b <= |log| && log[p].y.key == key
    && forall a :: 0 <= a < b && log[a].y.key == key ==>
      log[a].seqno < log[p].seqno || (p <= a && log[a].seqno == log[p].seqno)
  }

  /** d is the newest instance on the key of store b, just before it. */
  ghost predicate NewestIs(log: seq<Entry>, b: nat, d: InstanceId)
    requires b < |log|
  {
    exists p: nat :: Newest(log, b, log[b].y.key, p) && log[p].i == d
  }

  /** The Seq of store b is above every earlier one on its key. */
  ghost predicate Above(log: seq<Entry>, b: nat)
    requires b < |log|
  {
    forall a :: 0 <= a < b && log[a].y.key == log[b].y.key ==> log[a].seqno < log[b].seqno
  }

  /** A Seq that is one more than an earlier one on its key. */
  ghost predicate OneMore(log: seq<Entry>, b: nat)
    requires b < |log|
  {
    exists a :: 0 <= a < b && log[a].y.key == log[b].y.key && log[a].seqno + 1 == log[b].seqno
  }

  ghost predicate Carries(req: PreAcceptReq, e: Entry) {
    e.i == req.i && e.y == req.y && e.seqno == req.seqno && e.deps == req.deps
  }

  /**
   * Store b answers a pre-accept request: its Seq is at least the request's, above every earlier one on the key, and
   * no higher than either needs; its Deps are the request's and the newest instance on the key, and no others.
   */
  ghost predicate Answers(log: seq<Entry>, b: nat, req: PreAcceptReq)
    requires b < |log|
  {
    && log[b].i == req.i && log[b].y == req.y
    && req.seqno <= log[b].seqno && Above(log, b) && (log[b].seqno == req.seqno || OneMore(log, b))
    && (forall d :: d in log[b].deps <==> d in req.deps || NewestIs(log, b, d))
  }

  /** Store b is a leader's own: the Seq right above every earlier one on the key, the newest instance as its Deps. */
  ghost predicate Fresh(log: seq<Entry>, b: nat)
    requires b < |log|
  {
    && Above(log, b) && (log[b].seqno == 1 || OneMore(log, b))
    && (forall d :: d in log[b].deps <==> NewestIs(log, b, d))
  }

  /** Every store at q comes from a message: the leader's own, one answered, or one copied. */
  ghost predicate Stems(msgs: set<Msg>, q: nat, log: seq<Entry>, b: nat)
    requires b < |log|
  {
    match log[b].state
    case Init => false
    case PreAccepted =>
      exists m :: m in msgs && m.PreAcceptMsg? &&
        if log[b].i.rid == q then Carries(m.req, log[b]) else Answers(log, b, m.req)
    case Accepted => exists m :: m in msgs && m.AcceptMsg? && Carries(m.req, log[b])
    case Committed => exists m :: m in msgs && m.CommitMsg? && Carries(m.req, log[b])
  }

  /** Entry b is the last store of its instance, and what the table holds. */
  ghost predicate Latest(cmds: map<InstanceId, Instance>, log: seq<Entry>, i: InstanceId, b: nat) {
    && b < |log| && log[b].i == i && (forall a :: b < a < |log| ==> log[a].i != i)
    && i in cmds && cmds[i].y == log[b].y && cmds[i].seqno == log[b].seqno && cmds[i].deps == log[b].deps
    && cmds[i].state == log[b].state
  }

  /** The table holds, of every instance ever stored and no other, the last store. */
  ghost predicate TableOk(cmds: map<InstanceId, Instance>, log: seq<Entry>) {
    && (forall i :: i in cmds ==> exists b :: Latest(cmds, log, i, b))
    && (forall b :: 0 <= b < |log| ==> log[b].i in cmds)
  }

  // ---- what a leader makes of the answers ---------------------------------------------------------

  /** Each position counted is a pre-accept store of the leader's command. */
  ghost predicate Places(logs: seq<seq<Entry>>, i: InstanceId, y: Command, counted: map<nat, nat>) {
    forall q :: q in counted ==>
      && q < |logs| && counted[q] < |logs[q]|
      && logs[q][counted[q]].i == i && logs[q][counted[q]].y == y && logs[q][counted[q]].state == PreAccepted
  }

  ghost predicate InPlace(logs: seq<seq<Entry>>, counted: map<nat, nat>) {
    forall q :: q in counted ==> q < |logs| && counted[q] < |logs[q]|
  }

  /** Replica q was counted with other Deps than the leader's. */
  ghost predicate Other(logs: seq<seq<Entry>>, counted: map<nat, nat>, deps: set<InstanceId>, q: nat)
    requires InPlace(logs, counted)
  {
    q in counted && logs[q][counted[q]].deps != deps
  }

  /** The Deps of all replicas counted, and no others. */
  ghost predicate AllDeps(logs: seq<seq<Entry>>, counted: map<nat, nat>, deps: set<InstanceId>)
    requires InPlace(logs, counted)
  {
    forall d :: d in deps <==> exists q :: q in counted && d in logs[q][counted[q]].deps
  }

  /** The highest of the leader's own Seq and those counted with other Deps. */
  ghost predicate HighestSeq(logs: seq<seq<Entry>>, counted: map<nat, nat>, ins: Instance, seqno: nat)
    requires InPlace(logs, counted)
  {
    && ins.seqno <= seqno && (forall q: nat :: Other(logs, counted, ins.deps, q) ==> logs[q][counted[q]].seqno <= seqno)
    && (seqno == ins.seqno || exists q: nat :: Other(logs, counted, ins.deps, q) && logs[q][counted[q]].seqno == seqno)
  }

  ghost predicate TallyOf(logs: seq<seq<Entry>>, counted: map<nat, nat>, ins: Instance, t: Tally)
    requires InPlace(logs, counted)
  {
    && AllDeps(logs, counted, t.deps) && HighestSeq(logs, counted, ins, t.maxSeq)
    && (t.isDiff <==> exists q: nat :: Other(logs, counted, ins.deps, q))
    && t.preAccepted == |counted|
  }

  /** The leader's own store, the first one counted. */
  ghost predicate OwnPlace(logs: seq<seq<Entry>>, i: InstanceId, counted: map<nat, nat>, ins: Instance)
    requires InPlace(logs, counted)
  {
    i.rid in counted && Carries(Req(ins), logs[i.rid][counted[i.rid]])
  }

  /**
   * What phase 1 settled on: a fast quorum that agrees with the leader's store, or a majority; the Deps of all counted;
   * the leader's own Seq if all agree, and otherwise the highest of it and of those that do not.
   */
  ghost predicate DecidedFrom(logs: seq<seq<Entry>>, i: InstanceId, d: Decision, ins: Instance) {
    && ins.i == i && ins.y == d.y && Places(logs, i, d.y, d.counted) && InPlace(logs, d.counted)
    && OwnPlace(logs, i, d.counted, ins) && AllDeps(logs, d.counted, d.deps)
    && (if exists q: nat :: Other(logs, d.counted, ins.deps, q)
        then HighestSeq(logs, d.counted, ins, d.seqno) && |d.counted| >= Majority(|logs|)
        else d.seqno == ins.seqno && d.deps == ins.deps &&
             (|d.counted| >= FastQuorum(|logs|) || |d.counted| >= Majority(|logs|)))
  }

  ghost predicate DecisionAttr(logs: seq<seq<Entry>>, i: InstanceId, d: Decision) {
    |logs| > 0 && exists ins :: DecidedFrom(logs, i, d, ins)
  }

  /** A commit rests on a fast quorum of equal answers. */
  ghost predicate CommitAttr(logs: seq<seq<Entry>>, i: InstanceId, d: Decision, a: Attrs) {
    && a == Attrs(d.y, d.seqno, d.deps) && |logs| > 0 && InPlace(logs, d.counted)
    && |d.counted| >= FastQuorum(|logs|) && forall q: nat :: !Other(logs, d.counted, d.deps, q)
  }

  ghost predicate LeaderAttr(logs: seq<seq<Entry>>, decided: map<InstanceId, Decision>, i: InstanceId, l: Leader) {
    match l
    case Reading(ins) => ins.i == i && ins.state == PreAccepted && i !in decided
    case Collecting(ins, t, heard, counted) =>
      && ins.i == i && i !in decided && Places(logs, i, ins.y, counted) && InPlace(logs, counted)
      && OwnPlace(logs, i, counted, ins) && TallyOf(logs, counted, ins, t)
      && counted.Keys <= heard + {i.rid} && i.rid !in heard
    case Accepting(ins, accepted, _) =>
      && ins.i == i && accepted == 1 && |logs| >= 2
      && i in decided && decided[i].y == ins.y && decided[i].seqno == ins.seqno && decided[i].deps == ins.deps
    case Finished(_) => true
  }

  /** A positive answer tells what its sender stored. */
  ghost predicate ReplyAttr(logs: seq<seq<Entry>>, i: InstanceId, from: nat, resp: PreAcceptResp, at: nat) {
    && from < |logs| && from != i.rid && at < |logs[from]|
    && logs[from][at].i == i && logs[from][at].state == PreAccepted
    && logs[from][at].seqno == resp.seqno && logs[from][at].deps == resp.deps
  }

  ghost predicate MsgAttr(logs: seq<seq<Entry>>, leaders: map<InstanceId, Leader>, decided: map<InstanceId, Decision>,
      m: Msg) {
    match m
    case PreAcceptMsg(req) =>
      req.i in leaders && !leaders[req.i].Reading? && (leaders[req.i].Collecting? ==> req == Req(leaders[req.i].ins))
    case PreAcceptReply(i, from, resp, at) => resp.ok ==> ReplyAttr(logs, i, from, resp, at)
    case AcceptReply(_, _, resp) => !resp.ok
    case _ =>
      && m.req.i in decided && decided[m.req.i].y == m.req.y
      && decided[m.req.i].seqno == m.req.seqno && decided[m.req.i].deps == m.req.deps
  }

  ghost predicate LogAttr(msgs: set<Msg>, q: nat, log: seq<Entry>) {
    forall b :: 0 <= b < |log| ==> Stems(msgs, q, log, b)
  }

  ghost predicate ReplicasAttr(s: System)
    requires Shape(s)
  {
    forall q :: 0 <= q < |s.logs| ==> TableOk(s.replicas[q].cmds, s.logs[q]) && LogAttr(s.msgs, q, s.logs[q])
  }

  ghost predicate LeadersAttr(s: System)
    requires Shape(s)
  {
    forall i :: i in s.leaders ==>
      i.rid < |s.logs| && i.index <= s.replicas[i.rid].instanceIdx && LeaderAttr(s.logs, s.decided, i, s.leaders[i])
  }

  ghost predicate MsgsAttr(s: System) {
    forall m :: m in s.msgs ==> MsgAttr(s.logs, s.leaders, s.decided, m)
  }

  ghost predicate DecisionsAttr(s: System) {
    && (forall i :: i in s.decided ==> i in s.leaders && DecisionAttr(s.logs, i, s.decided[i]))
    && (forall i :: i in s.committed ==> i in s.decided && CommitAttr(s.logs, i, s.decided[i], s.committed[i]))
  }

  ghost predicate AttrInv(s: System) {
    Shape(s) && ReplicasAttr(s) && LeadersAttr(s) && MsgsAttr(s) && DecisionsAttr(s)
  }

  // ---- longer logs change nothing -----------------------------------------------------------------

  lemma StemsGrows(msgs: set<Msg>, msgs': set<Msg>, q: nat, log: seq<Entry>, log': seq<Entry>, b: nat)
    requires b < |log| && log <= log' && msgs <= msgs' && Stems(msgs, q, log, b)
    ensures Stems(msgs', q, log', b)
  {
    assert log'[b] == log[b];
    if log[b].state == PreAccepted && log[b].i.rid != q {
      var m :| m in msgs && m.PreAcceptMsg? && Answers(log, b, m.req);
      AnswersGrows(log, log', b, m.req);
    }
  }

  lemma NewestGrows(log: seq<Entry>, log': seq<Entry>, b: nat)
    requires b < |log| && log <= log'
    ensures Above(log, b) ==> Above(log', b)
    ensures OneMore(log, b) ==> OneMore(log', b)
    ensures forall d :: NewestIs(log, b, d) <==> NewestIs(log', b, d)
  {
    assert log'[b] == log[b];
    forall d ensures NewestIs(log, b, d) <==> NewestIs(log', b, d) {
      NewestSame(log, log', b, d);
    }
  }

  lemma NewestSame(log: seq<Entry>, log': seq<Entry>, b: nat, d: InstanceId)
    requires b < |log| && log <= log'
    ensures NewestIs(log, b, d) <==> NewestIs(log', b, d)
  {
    assert log'[b] == log[b];
    var key := log[b].y.key;
    if p: nat :| Newest(log, b, key, p) && log[p].i == d {
      assert Newest(log', b, key, p);
    }
    if p: nat :| Newest(log', b, key, p) && log'[p].i == d {
      assert log[p] == log'[p];
      assert forall a :: 0 <= a < b ==> log[a] == log'[a];
      assert Newest(log, b, key, p);
    }
  }

  lemma AnswersGrows(log: seq<Entry>, log': seq<Entry>, b: nat, req: PreAcceptReq)
    requires b < |log| && log <= log' && Answers(log, b, req)
    ensures Answers(log', b, req)
  {
    NewestGrows(log, log', b);
    hide Above, OneMore, NewestIs;
    assert log'[b] == log[b];
  }

  lemma LogGrows(msgs: set<Msg>, msgs': set<Msg>, q: nat, log: seq<Entry>, e: Entry)
    requires LogAttr(msgs, q, log) && msgs <= msgs' && Stems(msgs', q, log + [e], |log|)
    ensures LogAttr(msgs', q, log + [e])
  {
    hide Stems;
    forall b | 0 <= b < |log + [e]| ensures Stems(msgs', q, log + [e], b) {
      if b < |log| {
        StemsGrows(msgs, msgs', q, log, log + [e], b);
      }
    }
  }

  lemma LogKeeps(msgs: set<Msg>, msgs': set<Msg>, q: nat, log: seq<Entry>)
    requires LogAttr(msgs, q, log) && msgs <= msgs'
    ensures LogAttr(msgs', q, log)
  {
    hide Stems;
    forall b | 0 <= b < |log| ensures Stems(msgs', q, log, b) {
      StemsGrows(msgs, msgs', q, log, log, b);
    }
  }

  lemma TableStores(r: Replica, log: seq<Entry>, ins: Instance)
    requires TableOk(r.cmds, log)
    ensures TableOk(Store(r, ins).cmds, log + [EntryFor(r, ins)])
  {
    var log', cmds' := log + [EntryFor(r, ins)], Store(r, ins).cmds;
    forall i | i in cmds' ensures exists b :: Latest(cmds', log', i, b) {
      if i == ins.i {
        assert Latest(cmds', log', i, |log|);
      } else {
        var b :| Latest(r.cmds, log, i, b);
        assert Latest(cmds', log', i, b);
      }
    }
  }

  lemma PlacesGrow(logs: seq<seq<Entry>>, logs': seq<seq<Entry>>, i: InstanceId, y: Command, counted: map<nat, nat>)
    requires LogsGrow(logs, logs') && Places(logs, i, y, counted)
    ensures Places(logs', i, y, counted) && InPlace(logs, counted) && InPlace(logs', counted)
    ensures forall q :: q in counted ==> logs'[q][counted[q]] == logs[q][counted[q]]
  {
    forall q | q in counted ensures logs'[q][counted[q]] == logs[q][counted[q]] {
      assert logs[q] <= logs'[q];
    }
  }

  /** The same entries stand at the places counted. */
  ghost predicate SameAt(logs: seq<seq<Entry>>, logs': seq<seq<Entry>>, counted: map<nat, nat>) {
    InPlace(logs, counted) && InPlace(logs', counted) &&
      forall q :: q in counted ==> logs'[q][counted[q]] == logs[q][counted[q]]
  }

  lemma TallyGrows(logs: seq<seq<Entry>>, logs': seq<seq<Entry>>, counted: map<nat, nat>, ins: Instance)
    requires SameAt(logs, logs', counted)
    ensures forall deps :: AllDeps(logs, counted, deps) ==> AllDeps(logs', counted, deps)
    ensures forall deps, q: nat :: Other(logs, counted, deps, q) <==> Other(logs', counted, deps, q)
    ensures forall seqno :: HighestSeq(logs, counted, ins, seqno) ==> HighestSeq(logs', counted, ins, seqno)
    ensures forall i :: OwnPlace(logs, i, counted, ins) ==> OwnPlace(logs', i, counted, ins)
  {
    assert forall deps, q: nat :: Other(logs, counted, deps, q) <==> Other(logs', counted, deps, q);
    forall deps | AllDeps(logs, counted, deps) ensures AllDeps(logs', counted, deps) {
      AllDepsGrow(logs, logs', counted, deps);
    }
    forall seqno | HighestSeq(logs, counted, ins, seqno) ensures HighestSeq(logs', counted, ins, seqno) {
      if seqno != ins.seqno {
        var q: nat :| Other(logs, counted, ins.deps, q) && logs[q][counted[q]].seqno == seqno;
        assert Other(logs', counted, ins.deps, q);
      }
    }
  }

  lemma AllDepsGrow(logs: seq<seq<Entry>>, logs': seq<seq<Entry>>, counted: map<nat, nat>, deps: set<InstanceId>)
    requires SameAt(logs, logs', counted) && AllDeps(logs, counted, deps)
    ensures AllDeps(logs', counted, deps)
  {
    forall d ensures d in deps <==> exists q :: q in counted && d in logs'[q][counted[q]].deps {
      if d in deps {
        var q :| q in counted && d in logs[q][counted[q]].deps;
        assert d in logs'[q][counted[q]].deps;
      }
      if q :| q in counted && d in logs'[q][counted[q]].deps {
        assert d in logs[q][counted[q]].deps;
      }
    }
  }

  lemma LeaderAttrGrows(logs: seq<seq<Entry>>, logs': seq<seq<Entry>>, decided: map<InstanceId, Decision>,
      i: InstanceId, l: Leader)
    requires LogsGrow(logs, logs') && LeaderAttr(logs, decided, i, l)
    ensures LeaderAttr(logs', decided, i, l)
  {
    if l.Collecting? {
      hide LogsGrow, Places, InPlace, AllDeps, HighestSeq, Other, OwnPlace, Carries;
      PlacesGrow(logs, logs', i, l.ins.y, l.counted);
      TallyGrows(logs, logs', l.counted, l.ins);
    }
  }

  lemma DecisionAttrGrows(logs: seq<seq<Entry>>, logs': seq<seq<Entry>>, i: InstanceId, d: Decision)
    requires LogsGrow(logs, logs') && DecisionAttr(logs, i, d)
    ensures DecisionAttr(logs', i, d)
    ensures forall a :: CommitAttr(logs, i, d, a) ==> CommitAttr(logs', i, d, a)
  {
    hide Places, InPlace, AllDeps, HighestSeq, Other, OwnPlace, FastQuorum, Majority;
    var ins :| DecidedFrom(logs, i, d, ins);
    PlacesGrow(logs, logs', i, d.y, d.counted);
    TallyGrows(logs, logs', d.counted, ins);
    assert DecidedFrom(logs', i, d, ins);
  }

  lemma MsgAttrGrows(logs: seq<seq<Entry>>, logs': seq<seq<Entry>>, leaders: map<InstanceId, Leader>,
      decided: map<InstanceId, Decision>, m: Msg)
    requires LogsGrow(logs, logs') && MsgAttr(logs, leaders, decided, m)
    ensures MsgAttr(logs', leaders, decided, m)
  {
    if m.PreAcceptReply? && m.resp.ok {
      assert logs[m.from] <= logs'[m.from];
    }
  }

  // ---- the building blocks of events --------------------------------------------------------------

  /** n is s with longer logs and one more message. */
  ghost predicate Longer(s: System, n: System, m: Msg) {
    && Shape(s) && Shape(n) && LogsGrow(s.logs, n.logs) && |n.logs| == |s.logs|
    && n.leaders == s.leaders && n.decided == s.decided && n.committed == s.committed && n.msgs == s.msgs + {m}
    && ReplicasAttr(n) && (forall p :: 0 <= p < |s.logs| ==> n.replicas[p].instanceIdx == s.replicas[p].instanceIdx)
  }

  lemma StoreReplica(s: System, q: nat, ins: Instance, m: Msg)
    requires Shape(s) && ReplicasAttr(s) && q < |s.replicas|
    requires Stems(s.msgs + {m}, q, s.logs[q] + [EntryFor(s.replicas[q], ins)], |s.logs[q]|)
    ensures Longer(s, Send(StoreAt(s, q, ins), m), m)
  {
    TableStores(s.replicas[q], s.logs[q], ins);
    assert Store(s.replicas[q], ins).instanceIdx == s.replicas[q].instanceIdx;
    hide TableOk, LogAttr, Stems, EntryFor, Store;
    LogGrows(s.msgs, s.msgs + {m}, q, s.logs[q], EntryFor(s.replicas[q], ins));
    forall p | 0 <= p < |s.logs| && p != q ensures LogAttr(s.msgs + {m}, p, s.logs[p]) {
      LogKeeps(s.msgs, s.msgs + {m}, p, s.logs[p]);
    }
  }

  lemma LongerDecisions(s: System, n: System, m: Msg)
    requires DecisionsAttr(s) && Longer(s, n, m)
    ensures DecisionsAttr(n)
  {
    hide DecisionAttr, CommitAttr, LogsGrow, ReplicasAttr;
    forall i | i in s.decided
      ensures DecisionAttr(n.logs, i, s.decided[i])
      ensures i in s.committed ==> CommitAttr(n.logs, i, s.decided[i], s.committed[i])
    {
      DecisionAttrGrows(s.logs, n.logs, i, s.decided[i]);
    }
  }

  lemma LongerLeaders(s: System, n: System, m: Msg)
    requires Longer(s, n, m) && LeadersAttr(s)
    ensures LeadersAttr(n)
  {
    hide LeaderAttr, LogsGrow, ReplicasAttr;
    forall i | i in s.leaders ensures LeaderAttr(n.logs, s.decided, i, s.leaders[i]) {
      LeaderAttrGrows(s.logs, n.logs, s.decided, i, s.leaders[i]);
    }
  }

  lemma LongerAttr(s: System, n: System, m: Msg)
    requires AttrInv(s) && Longer(s, n, m) && MsgAttr(n.logs, s.leaders, s.decided, m)
    ensures AttrInv(n)
  {
    hide ReplicasAttr, LeadersAttr, DecisionsAttr, MsgAttr, LogsGrow;
    LongerDecisions(s, n, m);
    LongerLeaders(s, n, m);
    forall x | x in s.msgs ensures MsgAttr(n.logs, s.leaders, s.decided, x) {
      MsgAttrGrows(s.logs, n.logs, s.leaders, s.decided, x);
    }
  }

  /** A store together with the message it comes from or answers. */
  lemma PutAttr(s: System, q: nat, ins: Instance, m: Msg)
    requires AttrInv(s) && q < |s.replicas|
    requires Stems(s.msgs + {m}, q, s.logs[q] + [EntryFor(s.replicas[q], ins)], |s.logs[q]|)
    requires MsgAttr(StoreAt(s, q, ins).logs, s.leaders, s.decided, m)
    ensures AttrInv(Send(StoreAt(s, q, ins), m))
    ensures forall p :: 0 <= p < |s.logs| ==> StoreAt(s, q, ins).replicas[p].instanceIdx == s.replicas[p].instanceIdx
  {
    hide ReplicasAttr, LeadersAttr, MsgsAttr, DecisionsAttr, MsgAttr, LogsGrow, Stems, EntryFor;
    StoreReplica(s, q, ins, m);
    hide AttrInv, StoreAt;
    LongerAttr(s, Send(StoreAt(s, q, ins), m), m);
  }

  lemma SendAttr(s: System, m: Msg)
    requires AttrInv(s) && MsgAttr(s.logs, s.leaders, s.decided, m)
    ensures AttrInv(Send(s, m))
  {
    hide TableOk, LogAttr, LeadersAttr, MsgAttr, DecisionAttr, CommitAttr;
    forall p | 0 <= p < |s.logs| ensures LogAttr(s.msgs + {m}, p, s.logs[p]) {
      LogKeeps(s.msgs, s.msgs + {m}, p, s.logs[p]);
    }
    LeadersSend(s, m);
  }

  lemma LeadersSend(s: System, m: Msg)
    requires Shape(s) && LeadersAttr(s)
    ensures LeadersAttr(Send(s, m))
  {
    hide LeaderAttr;
  }

  /** The messages about an instance still fit when its leader moves on. */
  ghost predicate StillFits(s: System, i: InstanceId, l: Leader) {
    if i !in s.leaders then l.Reading?
    else !l.Reading? && (l.Collecting? ==>
      forall m :: m in s.msgs && m.PreAcceptMsg? && m.req.i == i ==> m.req == Req(l.ins))
  }

  lemma SetAttr(s: System, i: InstanceId, l: Leader)
    requires AttrInv(s) && StillFits(s, i, l) && LeaderAttr(s.logs, s.decided, i, l)
    requires i.rid < |s.logs| && i.index <= s.replicas[i.rid].instanceIdx
    ensures AttrInv(SetLeader(s, i, l))
  {
    hide ReplicasAttr, LeaderAttr, DecisionAttr, CommitAttr, ReplyAttr;
    var n := SetLeader(s, i, l);
    MsgsSet(s, i, l);
    hide MsgsAttr;
    assert ReplicasAttr(n) by { ReplicasSame(s, n); }
  }

  lemma ReplicasSame(s: System, n: System)
    requires Shape(s) && ReplicasAttr(s) && n.replicas == s.replicas && n.logs == s.logs && n.msgs == s.msgs
    ensures Shape(n) && ReplicasAttr(n)
  {
    hide TableOk, LogAttr;
  }

  lemma MsgsSet(s: System, i: InstanceId, l: Leader)
    requires MsgsAttr(s) && StillFits(s, i, l)
    ensures MsgsAttr(SetLeader(s, i, l))
  {
    hide ReplyAttr;
    var n := SetLeader(s, i, l);
    forall m | m in s.msgs ensures MsgAttr(n.logs, n.leaders, n.decided, m) {
      assert MsgAttr(s.logs, s.leaders, s.decided, m);
    }
  }

  lemma LeaderAt(s: System, i: InstanceId)
    requires AttrInv(s) && i in s.leaders
    ensures Shape(s) && i.rid < |s.logs| && i.index <= s.replicas[i.rid].instanceIdx
    ensures LeaderAttr(s.logs, s.decided, i, s.leaders[i])
  {
    hide ReplicasAttr, MsgsAttr, DecisionsAttr, LeaderAttr;
  }

  lemma MsgAt(s: System, m: Msg)
    requires AttrInv(s) && m in s.msgs
    ensures Shape(s) && MsgAttr(s.logs, s.leaders, s.decided, m)
  {
    hide ReplicasAttr, LeadersAttr, DecisionsAttr, MsgAttr;
  }

  lemma LogAt(s: System, q: nat, b: nat)
    requires AttrInv(s) && q < |s.logs| && b < |s.logs[q]|
    ensures Stems(s.msgs, q, s.logs[q], b)
  {
    hide MsgsAttr, LeadersAttr, DecisionsAttr, TableOk, Stems;
    assert LogAttr(s.msgs, q, s.logs[q]);
  }
}
