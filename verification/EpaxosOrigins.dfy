/** Every event of a run keeps to where Seq and Deps come from, and what follows for stores, answers and decisions. */
module EpaxosOrigins {
  import opened Collections
  import opened EpaxosTypes
  import opened EpaxosReplica
  import opened EpaxosProtocol
  import opened EpaxosInterference
  import opened EpaxosIndex
  import opened EpaxosAttributes

  // ---- what the index answers ---------------------------------------------------------------------

  /** The index names the newest instance on a key, or none if the key was never stored. */
  lemma IndexIsNewest(r: Replica, log: seq<Entry>, key: string) returns (p: nat)
    requires Indexed(r, log)
    ensures if key in r.root
      then Newest(log, |log|, key, p) && r.root[key].lastId == Some(log[p].i) && r.root[key].lastSeq == log[p].seqno
      else forall a :: 0 <= a < |log| ==> log[a].y.key != key
  {
    p := 0;
    if key in r.root {
      p :| IsFirst(r.root[key], log, key, p);
    }
  }

  /** What the index answers about a key, said of the store that comes next. */
  ghost predicate Reads(log: seq<Entry>, b: nat, maxSeq: nat, deps: set<InstanceId>)
    requires b < |log|
  {
    && (forall a :: 0 <= a < b && log[a].y.key == log[b].y.key ==> log[a].seqno <= maxSeq)
    && (maxSeq == 0 || exists a :: 0 <= a < b && log[a].y.key == log[b].y.key && log[a].seqno == maxSeq)
    && (forall d :: d in deps <==> NewestIs(log, b, d))
  }

  lemma NewestStays(log: seq<Entry>, e: Entry, key: string, p: nat)
    requires Newest(log, |log|, key, p)
    ensures Newest(log + [e], |log|, key, p) && (log + [e])[p] == log[p]
  {
    assert forall a :: 0 <= a < |log| ==> (log + [e])[a] == log[a];
  }

  /** There is only one newest store, so only one newest instance. */
  lemma OnlyNewest(log: seq<Entry>, b: nat, p: nat)
    requires b < |log| && Newest(log, b, log[b].y.key, p)
    ensures forall d :: NewestIs(log, b, d) <==> d == log[p].i
  {
    forall d | NewestIs(log, b, d) ensures d == log[p].i {
      var p': nat :| Newest(log, b, log[b].y.key, p') && log[p'].i == d;
      assert p' == p;
    }
    assert NewestIs(log, b, log[p].i);
  }

  lemma InterfReads(r: Replica, log: seq<Entry>, e: Entry)
    requires Indexed(r, log)
    ensures Reads(log + [e], |log|, Interf(r, e.y.key).0, Interf(r, e.y.key).1)
  {
    var log', b, key := log + [e], |log|, e.y.key;
    var p := IndexIsNewest(r, log, key);
    hide Indexed;
    assert log'[b] == e;
    if key in r.root {
      NewestStays(log, e, key, p);
      OnlyNewest(log', b, p);
      hide NewestIs;
      assert 0 <= p < b && log'[p].y.key == log'[b].y.key && log'[p].seqno == r.root[key].lastSeq;
    } else {
      assert forall a :: 0 <= a < b ==> log'[a] == log[a];
    }
  }

  lemma StoreAnswers(r: Replica, log: seq<Entry>, req: PreAcceptReq)
    requires Indexed(r, log) && req.seqno >= 1
    ensures Answers(log + [EntryFor(r, PreAcceptedAs(r, req))], |log|, req)
  {
    hide Indexed, NewestIs;
    var e := EntryFor(r, PreAcceptedAs(r, req));
    var log' := log + [e];
    InterfReads(r, log, e);
    assert log'[|log|] == e;
    if e.seqno != req.seqno {
      var a :| 0 <= a < |log| && log'[a].y.key == log'[|log|].y.key && log'[a].seqno == e.seqno - 1;
      assert OneMore(log', |log|);
    }
  }

  lemma StoreFresh(r: Replica, log: seq<Entry>, ins: Instance)
    requires Indexed(r, log) && ins.seqno >= 1 && Interf(r, ins.y.key) == (ins.seqno - 1, ins.deps)
    ensures Fresh(log + [EntryFor(r, ins)], |log|)
  {
    hide Indexed, NewestIs;
    var e := EntryFor(r, ins);
    var log' := log + [e];
    InterfReads(r, log, e);
    assert log'[|log|] == e;
    if ins.seqno > 1 {
      var a :| 0 <= a < |log| && log'[a].y.key == log'[|log|].y.key && log'[a].seqno == ins.seqno - 1;
      assert OneMore(log', |log|);
    }
  }

  // ---- events ---------------------------------------------------------------------------------------

  lemma BeginAttr(s: System, r: nat, y: Command, epoch: nat)
    requires AttrInv(s) && r < |s.replicas|
    ensures AttrInv(DoBegin(s, r, y, epoch))
  {
    var rep := s.replicas[r];
    var i := InstanceId(r, rep.instanceIdx + 1);
    var s1 := s.(replicas := s.replicas[r := rep.(instanceIdx := rep.instanceIdx + 1)]);
    hide TableOk, LogAttr, MsgAttr, DecisionAttr, CommitAttr, LeaderAttr;
    assert i !in s.leaders && i !in s.decided;
    CounterMoves(s, r);
    hide AttrInv;
    NewLeader(s1, i, DoBegin(s, r, y, epoch).leaders[i]);
  }

  lemma CounterMoves(s: System, r: nat)
    requires AttrInv(s) && r < |s.replicas|
    ensures AttrInv(s.(replicas := s.replicas[r := s.replicas[r].(instanceIdx := s.replicas[r].instanceIdx + 1)]))
  {
    hide TableOk, LogAttr, MsgAttr, DecisionsAttr, LeaderAttr;
    var n := s.(replicas := s.replicas[r := s.replicas[r].(instanceIdx := s.replicas[r].instanceIdx + 1)]);
    DecisionsSame(s, n);
  }

  lemma DecisionsSame(s: System, n: System)
    requires DecisionsAttr(s) && n.logs == s.logs && n.leaders == s.leaders && n.decided == s.decided &&
      n.committed == s.committed
    ensures DecisionsAttr(n)
  {
    hide DecisionAttr, CommitAttr;
  }

  lemma NewLeader(s: System, i: InstanceId, l: Leader)
    requires AttrInv(s) && i !in s.leaders && i !in s.decided && l.Reading? && l.ins.i == i
    requires l.ins.state == PreAccepted && i.rid < |s.logs| && i.index <= s.replicas[i.rid].instanceIdx
    ensures AttrInv(SetLeader(s, i, l))
  {
    hide AttrInv;
    SetAttr(s, i, l);
  }

  /** A store at a leader, with the message it sends. */
  lemma OwnStems(s: System, ins: Instance, m: Msg)
    requires Shape(s) && ins.i.rid < |s.logs|
    requires match ins.state
      case Init => false
      case PreAccepted => m == PreAcceptMsg(Req(ins))
      case Accepted => m == AcceptMsg(Req(ins))
      case Committed => m == CommitMsg(Req(ins))
    ensures var q := ins.i.rid; Stems(s.msgs + {m}, q, s.logs[q] + [EntryFor(s.replicas[q], ins)], |s.logs[q]|)
  {
    var q := ins.i.rid;
    var e := EntryFor(s.replicas[q], ins);
    assert (s.logs[q] + [e])[|s.logs[q]|] == e;
    assert m in s.msgs + {m} && Carries(m.req, e);
  }

  lemma FirstTallyOf(logs: seq<seq<Entry>>, i: InstanceId, ins: Instance, at: nat)
    requires i == ins.i && i.rid < |logs| && at < |logs[i.rid]|
    requires Carries(Req(ins), logs[i.rid][at]) && logs[i.rid][at].state == PreAccepted
    ensures var counted := map[i.rid := at];
      && Places(logs, i, ins.y, counted) && InPlace(logs, counted) && OwnPlace(logs, i, counted, ins)
      && TallyOf(logs, counted, ins, FirstTally(ins)) && counted.Keys == {i.rid}
  {
    var counted := map[i.rid := at];
    assert counted[i.rid] == at;
    assert forall d :: d in ins.deps ==> i.rid in counted && d in logs[i.rid][counted[i.rid]].deps;
  }

  lemma EntryCarries(r: Replica, ins: Instance)
    ensures Carries(Req(ins), EntryFor(r, ins)) && EntryFor(r, ins).state == ins.state
  {
  }

  lemma ProposeAttr(s: System, i: InstanceId)
    requires AttrInv(s) && i in s.leaders && s.leaders[i].Reading?
    ensures Shape(s) && i.rid < |s.replicas| && AttrInv(DoPropose(s, i))
  {
    hide AttrInv, Stems, EntryFor, Store, TallyOf, Places, InPlace, OwnPlace, ReplyAttr, LogsGrow;
    LeaderAt(s, i);
    NoRequestYet(s, i);
    var ins, at := s.leaders[i].ins, |s.logs[i.rid]|;
    var s0, m := SetLeader(s, i, Finished(false)), PreAcceptMsg(Req(ins));
    SetAttr(s, i, Finished(false));
    OwnStems(s0, ins, m);
    PutAttr(s0, i.rid, ins, m);
    var s1 := Send(StoreAt(s0, i.rid, ins), m);
    assert s1.logs[i.rid][at] == EntryFor(s.replicas[i.rid], ins);
    EntryCarries(s.replicas[i.rid], ins);
    FirstTallyOf(s1.logs, i, ins, at);
    var l := Collecting(ins, FirstTally(ins), {}, map[i.rid := at]);
    SetAttr(s1, i, l);
    assert s0.leaders[i := l] == s.leaders[i := l];
    assert DoPropose(s, i) == SetLeader(s1, i, l);
  }

  lemma NoRequestYet(s: System, i: InstanceId)
    requires AttrInv(s) && i in s.leaders && s.leaders[i].Reading?
    ensures forall m :: m in s.msgs && m.PreAcceptMsg? ==> m.req.i != i
  {
    hide ReplicasAttr, LeadersAttr, DecisionsAttr;
    forall m | m in s.msgs && m.PreAcceptMsg? ensures m.req.i != i {
      assert MsgAttr(s.logs, s.leaders, s.decided, m);
    }
  }

  lemma PreAcceptAttr(s: System, r: nat, m: Msg)
    requires AttrInv(s) && Shape(s) && r < |s.replicas| && Indexed(s.replicas[r], s.logs[r])
    requires m in s.msgs && m.PreAcceptMsg? && m.req.i.rid != r && m.req.seqno >= 1
    ensures AttrInv(DoPreAccept(s, r, m.req))
  {
    hide AttrInv, RefusesPreAccept, PreAcceptedAs, Indexed;
    var req := m.req;
    var reply := PreAcceptReply(req.i, r, PreAcceptStep(s.replicas[r], req).1, |s.logs[r]|);
    if RefusesPreAccept(s.replicas[r], req) {
      SendAttr(s, reply);
    } else {
      var ins := PreAcceptedAs(s.replicas[r], req);
      AnswerStems(s, r, m, reply);
      PutAttr(s, r, ins, reply);
    }
  }

  lemma AnswerStems(s: System, r: nat, m: Msg, reply: Msg)
    requires Shape(s) && r < |s.replicas| && Indexed(s.replicas[r], s.logs[r])
    requires m in s.msgs && m.PreAcceptMsg? && m.req.i.rid != r && m.req.seqno >= 1
    requires !RefusesPreAccept(s.replicas[r], m.req)
    requires reply == PreAcceptReply(m.req.i, r, PreAcceptStep(s.replicas[r], m.req).1, |s.logs[r]|)
    ensures var ins := PreAcceptedAs(s.replicas[r], m.req);
      && Stems(s.msgs + {reply}, r, s.logs[r] + [EntryFor(s.replicas[r], ins)], |s.logs[r]|)
      && MsgAttr(StoreAt(s, r, ins).logs, s.leaders, s.decided, reply)
  {
    var e := EntryFor(s.replicas[r], PreAcceptedAs(s.replicas[r], m.req));
    StoreAnswers(s.replicas[r], s.logs[r], m.req);
    hide Indexed, Answers;
    assert (s.logs[r] + [e])[|s.logs[r]|] == e;
    assert m in s.msgs + {reply};
  }

  lemma AcceptAttr(s: System, r: nat, m: Msg)
    requires AttrInv(s) && r < |s.replicas| && m in s.msgs
    ensures Shape(s)
    ensures m.AcceptMsg? ==> AttrInv(DoAccept(s, r, m.req))
    ensures m.CommitMsg? ==> AttrInv(DoCommit(s, r, m.req))
  {
    hide AttrInv, Stems, EntryFor, Store, TallyOf, Places, InPlace, OwnPlace, ReplyAttr, LogsGrow;
    MsgAt(s, m);
    if m.AcceptMsg? {
      var reply := AcceptReply(m.req.i, r, AcceptStep(s.replicas[r], m.req).1);
      if RefusesAccept(s.replicas[r], m.req) {
        SendAttr(s, reply);
      } else {
        var ins := FromReq(m.req, m.req.seqno, m.req.deps, Accepted);
        CopyStems(s, r, ins, m, reply);
        PutAttr(s, r, ins, reply);
      }
    } else if m.CommitMsg? {
      var ins := FromReq(m.req, m.req.seqno, m.req.deps, Committed);
      CopyStems(s, r, ins, m, m);
      PutAttr(s, r, ins, m);
      assert s.msgs + {m} == s.msgs;
      assert Send(StoreAt(s, r, ins), m) == StoreAt(s, r, ins);
    }
  }

  lemma CopyStems(s: System, q: nat, ins: Instance, m: Msg, extra: Msg)
    requires Shape(s) && q < |s.logs| && m in s.msgs
    requires (m.AcceptMsg? && ins.state == Accepted) || (m.CommitMsg? && ins.state == Committed)
    requires ins == FromReq(m.req, m.req.seqno, m.req.deps, ins.state)
    ensures Stems(s.msgs + {extra}, q, s.logs[q] + [EntryFor(s.replicas[q], ins)], |s.logs[q]|)
  {
    var e := EntryFor(s.replicas[q], ins);
    assert (s.logs[q] + [e])[|s.logs[q]|] == e;
    assert m in s.msgs + {extra} && Carries(m.req, e);
  }

  // ---- hearing answers ----------------------------------------------------------------------------

  /** One more answer counted. */
  lemma CountsOne(logs: seq<seq<Entry>>, i: InstanceId, counted: map<nat, nat>, ins: Instance, n: nat, t: Tally,
      q: nat, at: nat, resp: PreAcceptResp)
    requires Places(logs, i, ins.y, counted) && InPlace(logs, counted) && OwnPlace(logs, i, counted, ins)
    requires TallyOf(logs, counted, ins, t) && q !in counted && n > 0 && resp.ok
    requires ReplyAttr(logs, i, q, resp, at) && logs[q][at].y == ins.y
    ensures var more, u := counted[q := at], Count(n, ins, t, Some(resp));
      && Places(logs, i, ins.y, more) && InPlace(logs, more) && OwnPlace(logs, i, more, ins)
      && TallyOf(logs, more, ins, u) && more.Keys == counted.Keys + {q}
  {
    var more, u := counted[q := at], Count(n, ins, t, Some(resp));
    assert more.Keys == counted.Keys + {q};
    assert |more| == |more.Keys| == |counted| + 1;
    CountsDeps(logs, i, counted, ins, n, t, q, at, resp);
    CountsSeq(logs, i, counted, ins, n, t, q, at, resp);
  }

  lemma CountsDeps(logs: seq<seq<Entry>>, i: InstanceId, counted: map<nat, nat>, ins: Instance, n: nat, t: Tally,
      q: nat, at: nat, resp: PreAcceptResp)
    requires InPlace(logs, counted) && OwnPlace(logs, i, counted, ins) && AllDeps(logs, counted, t.deps)
    requires q !in counted && n > 0 && resp.ok && ReplyAttr(logs, i, q, resp, at)
    ensures InPlace(logs, counted[q := at])
    ensures AllDeps(logs, counted[q := at], Count(n, ins, t, Some(resp)).deps)
  {
    var more, u := counted[q := at], Count(n, ins, t, Some(resp));
    assert i.rid in more && more[i.rid] == counted[i.rid];
    forall d ensures d in u.deps <==> exists p :: p in more && d in logs[p][more[p]].deps {
      if d in t.deps {
        var p :| p in counted && d in logs[p][counted[p]].deps;
        assert p in more && d in logs[p][more[p]].deps;
      }
      if d in resp.deps {
        assert q in more && d in logs[q][more[q]].deps;
      }
      if p :| p in more && d in logs[p][more[p]].deps {
        if p != q {
          assert p in counted && d in logs[p][counted[p]].deps;
        } else if resp.deps == ins.deps {
          assert i.rid in counted && d in logs[i.rid][counted[i.rid]].deps;
        }
      }
    }
  }

  lemma CountsSeq(logs: seq<seq<Entry>>, i: InstanceId, counted: map<nat, nat>, ins: Instance, n: nat, t: Tally,
      q: nat, at: nat, resp: PreAcceptResp)
    requires InPlace(logs, counted) && HighestSeq(logs, counted, ins, t.maxSeq)
    requires t.isDiff <==> exists p: nat :: Other(logs, counted, ins.deps, p)
    requires q !in counted && n > 0 && resp.ok && ReplyAttr(logs, i, q, resp, at)
    ensures InPlace(logs, counted[q := at])
    ensures var more, u := counted[q := at], Count(n, ins, t, Some(resp));
      HighestSeq(logs, more, ins, u.maxSeq) && (u.isDiff <==> exists p: nat :: Other(logs, more, ins.deps, p))
  {
    var more, u := counted[q := at], Count(n, ins, t, Some(resp));
    assert forall p: nat :: p != q ==> (Other(logs, more, ins.deps, p) <==> Other(logs, counted, ins.deps, p));
    assert Other(logs, more, ins.deps, q) <==> resp.deps != ins.deps;
    if t.maxSeq != ins.seqno {
      var p: nat :| Other(logs, counted, ins.deps, p) && logs[p][counted[p]].seqno == t.maxSeq;
      assert Other(logs, more, ins.deps, p) && logs[p][more[p]].seqno == t.maxSeq;
    }
    if p: nat :| Other(logs, counted, ins.deps, p) {
      assert Other(logs, more, ins.deps, p);
    }
  }

  lemma CountsNone(logs: seq<seq<Entry>>, counted: map<nat, nat>, ins: Instance, n: nat, t: Tally,
      reply: Option<PreAcceptResp>)
    requires InPlace(logs, counted) && TallyOf(logs, counted, ins, t) && n > 0 && !Positive(reply)
    ensures TallyOf(logs, counted, ins, Count(n, ins, t, reply))
  {
    hide AllDeps, HighestSeq, Other;
  }

  lemma HearAttr(s: System, i: InstanceId, from: nat, reply: Option<Msg>)
    requires AttrInv(s) && Shape(s) && Enabled(s, HearPreAccept(i, from, reply))
    ensures AttrInv(DoHear(s, i, from, reply))
  {
    hide AttrInv, Stems, EntryFor, Store, TallyOf, Places, InPlace, OwnPlace, ReplyAttr, LogsGrow;
    LeaderAt(s, i);
    RequestsFit(s, i);
    var l, l' := s.leaders[i], DoHear(s, i, from, reply).leaders[i];
    if reply.Some? && reply.value.resp.ok {
      HeardCommand(s, i, from, reply.value);
      hide Count;
      CountsOne(s.logs, i, l.counted, l.ins, |s.replicas|, l.tally, from, reply.value.at, reply.value.resp);
    } else {
      CountsNone(s.logs, l.counted, l.ins, |s.replicas|, l.tally, if reply.None? then None else Some(reply.value.resp));
      hide Count;
    }
    SetAttr(s, i, l');
  }

  lemma RequestsFit(s: System, i: InstanceId)
    requires AttrInv(s) && i in s.leaders && s.leaders[i].Collecting?
    ensures forall m :: m in s.msgs && m.PreAcceptMsg? && m.req.i == i ==> m.req == Req(s.leaders[i].ins)
  {
    hide ReplicasAttr, LeadersAttr, DecisionsAttr;
    forall m | m in s.msgs && m.PreAcceptMsg? && m.req.i == i ensures m.req == Req(s.leaders[i].ins) {
      assert MsgAttr(s.logs, s.leaders, s.decided, m);
    }
  }

  /** A positive answer is about the command the leader proposed. */
  lemma HeardCommand(s: System, i: InstanceId, from: nat, m: Msg)
    requires AttrInv(s) && i in s.leaders && s.leaders[i].Collecting?
    requires m in s.msgs && m.PreAcceptReply? && m.i == i && m.from == from && m.resp.ok
    ensures ReplyAttr(s.logs, i, from, m.resp, m.at) && s.logs[from][m.at].y == s.leaders[i].ins.y
  {
    MsgAt(s, m);
    RequestsFit(s, i);
    LogAt(s, from, m.at);
    hide AttrInv;
    var x :| x in s.msgs && x.PreAcceptMsg? && Answers(s.logs[from], m.at, x.req);
  }

  // ---- deciding -----------------------------------------------------------------------------------

  lemma DecideAttr(s: System, i: InstanceId, d: Decision)
    requires AttrInv(s) && i in s.leaders && s.leaders[i].Finished? && i !in s.decided && DecisionAttr(s.logs, i, d)
    ensures AttrInv(s.(decided := s.decided[i := d]))
  {
    var n := s.(decided := s.decided[i := d]);
    hide ReplicasAttr, DecisionAttr, CommitAttr, ReplyAttr, TallyOf, Places, InPlace, OwnPlace;
    assert ReplicasAttr(n) by { ReplicasSame(s, n); }
    forall j | j in s.leaders ensures LeaderAttr(n.logs, n.decided, j, n.leaders[j]) {
      assert LeaderAttr(s.logs, s.decided, j, s.leaders[j]);
    }
    forall m | m in s.msgs ensures MsgAttr(n.logs, n.leaders, n.decided, m) {
      assert MsgAttr(s.logs, s.leaders, s.decided, m);
    }
  }

  lemma CommitAttrs(s: System, i: InstanceId, a: Attrs)
    requires AttrInv(s) && i in s.decided && CommitAttr(s.logs, i, s.decided[i], a)
    ensures AttrInv(s.(committed := s.committed[i := a]))
  {
    hide DecisionAttr, CommitAttr, LeaderAttr, MsgAttr, TableOk, LogAttr;
  }

  /** What the tally says of the places counted is what the decision promises. */
  lemma TallyDecides(n: nat, logs: seq<seq<Entry>>, i: InstanceId, l: Leader)
    requires l.Collecting? && |logs| == n > 0 && LeaderAttr(logs, map[], i, l)
    requires l.tally.preAccepted >= Majority(n) || (l.tally.preAccepted >= FastQuorum(n) && !l.tally.isDiff)
    ensures var ins, t := Settled(l), l.tally;
      var d := Decision(ins.y, ins.seqno, ins.deps, l.counted);
      && DecisionAttr(logs, i, d)
      && (t.preAccepted >= FastQuorum(n) && !t.isDiff ==> CommitAttr(logs, i, d, Attrs(d.y, d.seqno, d.deps)))
      && (n == 1 ==> !t.isDiff)
  {
    var ins, t, c := Settled(l), l.tally, l.counted;
    var d := Decision(ins.y, ins.seqno, ins.deps, c);
    if !t.isDiff {
      AgreedDeps(logs, i, c, l.ins, t.deps);
    }
    if n == 1 {
      assert forall q: nat :: q in c ==> q == i.rid;
    }
    hide FastQuorum, Majority;
    assert DecidedFrom(logs, i, d, l.ins);
  }

  lemma AgreedDeps(logs: seq<seq<Entry>>, i: InstanceId, counted: map<nat, nat>, ins: Instance, deps: set<InstanceId>)
    requires InPlace(logs, counted) && OwnPlace(logs, i, counted, ins) && AllDeps(logs, counted, deps)
    requires forall q: nat :: !Other(logs, counted, ins.deps, q)
    ensures deps == ins.deps
  {
    forall d ensures d in deps <==> d in ins.deps {
      if d in deps {
        var q :| q in counted && d in logs[q][counted[q]].deps;
        assert !Other(logs, counted, ins.deps, q);
      } else {
        assert i.rid in counted ==> d !in logs[i.rid][counted[i.rid]].deps;
      }
    }
  }

  lemma EndPhase1Attr(s: System, i: InstanceId)
    requires AttrInv(s) && Shape(s) && Enabled(s, EndPhase1(i))
    ensures AttrInv(DoEndPhase1(s, i))
  {
    hide AttrInv, TallyOf, Places, InPlace, OwnPlace, CommitAt, SlowAt, DecisionAttr, CommitAttr;
    LeaderAt(s, i);
    var n, l := |s.replicas|, s.leaders[i];
    var ins, t := Settled(l), l.tally;
    assert LeaderAttr(s.logs, map[], i, l);
    hide LeaderAttr;
    Stopped(s, i);
    if t.preAccepted >= Majority(n) || (t.preAccepted >= FastQuorum(n) && !t.isDiff) {
      TallyDecides(n, s.logs, i, l);
      var d := Decision(ins.y, ins.seqno, ins.deps, l.counted);
      var s0 := SetLeader(s, i, Finished(false));
      DecideAttr(s0, i, d);
      var s1 := s0.(decided := s.decided[i := d]);
      var s2 := s.(decided := s.decided[i := d]);
      EndsAlike(s2, i, Finished(false), ins);
      assert s1 == SetLeader(s2, i, Finished(false));
      if t.preAccepted >= FastQuorum(n) && !t.isDiff {
        FastAttr(s1, i, ins);
      } else {
        SlowAttr(s1, i, ins);
        SlowIs(s2, i, ins);
      }
    }
  }

  lemma SlowIs(s: System, i: InstanceId, ins: Instance)
    requires i.rid < |s.replicas| == |s.logs|
    ensures var acc := ins.(state := Accepted);
      SlowAt(s, i, ins) == SetLeader(Send(StoreAt(s, i.rid, acc), AcceptMsg(Req(acc))), i, Accepting(acc, 1, {}))
  {
  }

  /** What the leader did before plays no part in how it ends phase 1. */
  lemma EndsAlike(s: System, i: InstanceId, l: Leader, ins: Instance)
    requires Shape(s) && i.rid < |s.replicas| && ins.i == i
    ensures CommitAt(SetLeader(s, i, l), ins) == CommitAt(s, ins)
    ensures SlowAt(SetLeader(s, i, l), i, ins) == SlowAt(s, i, ins)
  {
    hide Store, EntryFor;
    var acc := ins.(state := Accepted);
    assert s.leaders[i := l][i := Finished(true)] == s.leaders[i := Finished(true)];
    assert s.leaders[i := l][i := Accepting(acc, 1, {})] == s.leaders[i := Accepting(acc, 1, {})];
  }

  lemma Stopped(s: System, i: InstanceId)
    requires AttrInv(s) && i in s.leaders && s.leaders[i].Collecting?
    ensures AttrInv(SetLeader(s, i, Finished(false))) && i !in s.decided
  {
    hide AttrInv, TallyOf, Places, InPlace, OwnPlace, LeadersAttr;
    LeaderAt(s, i);
    SetAttr(s, i, Finished(false));
  }

  lemma FastAttr(s: System, i: InstanceId, ins: Instance)
    requires AttrInv(s) && i in s.leaders && ins.i == i && i in s.decided
    requires var d := s.decided[i]; Attrs(d.y, d.seqno, d.deps) == Attrs(ins.y, ins.seqno, ins.deps)
    requires CommitAttr(s.logs, i, s.decided[i], Attrs(ins.y, ins.seqno, ins.deps))
    ensures Shape(s) && i.rid < |s.replicas| && AttrInv(CommitAt(s, ins))
  {
    hide AttrInv, Stems, EntryFor, Store, TallyOf, Places, InPlace, OwnPlace, ReplyAttr, LogsGrow, CommitAttr;
    LeaderAt(s, i);
    var done := ins.(state := Committed);
    var m := CommitMsg(Req(done));
    var s0 := s.(committed := s.committed[i := Attrs(ins.y, ins.seqno, ins.deps)]);
    CommitAttrs(s, i, Attrs(ins.y, ins.seqno, ins.deps));
    OwnStems(s0, done, m);
    PutAttr(s0, i.rid, done, m);
    var s1 := Send(StoreAt(s0, i.rid, done), m);
    SetAttr(s1, i, Finished(true));
    assert CommitAt(s, ins) == SetLeader(s1, i, Finished(true));
  }

  function SlowAt(s: System, i: InstanceId, ins: Instance): System
    requires i.rid < |s.replicas| == |s.logs|
  {
    var acc := ins.(state := Accepted);
    SetLeader(Send(StoreAt(s, i.rid, acc), AcceptMsg(Req(acc))), i, Accepting(acc, 1, {}))
  }

  lemma SlowAttr(s: System, i: InstanceId, ins: Instance)
    requires AttrInv(s) && i in s.leaders && ins.i == i && i in s.decided && |s.logs| >= 2
    requires var d := s.decided[i]; Attrs(d.y, d.seqno, d.deps) == Attrs(ins.y, ins.seqno, ins.deps)
    ensures Shape(s) && i.rid < |s.replicas| && AttrInv(SlowAt(s, i, ins))
  {
    hide AttrInv, Stems, EntryFor, Store, TallyOf, Places, InPlace, OwnPlace, ReplyAttr, LogsGrow;
    LeaderAt(s, i);
    var acc := ins.(state := Accepted);
    var m := AcceptMsg(Req(acc));
    OwnStems(s, acc, m);
    PutAttr(s, i.rid, acc, m);
    SetAttr(Send(StoreAt(s, i.rid, acc), m), i, Accepting(acc, 1, {}));
  }

  lemma HearAcceptAttr(s: System, i: InstanceId, from: nat, reply: Option<Msg>)
    requires AttrInv(s) && Shape(s) && Enabled(s, HearAccept(i, from, reply))
    ensures AttrInv(DoHearAccept(s, i, from, reply))
  {
    hide AttrInv, Stems, EntryFor, Store, TallyOf, Places, InPlace, OwnPlace, ReplyAttr, LogsGrow;
    LeaderAt(s, i);
    if reply.Some? {
      MsgAt(s, reply.value);
    }
    SetAttr(s, i, DoHearAccept(s, i, from, reply).leaders[i]);
  }

  lemma EndAcceptAttr(s: System, i: InstanceId)
    requires AttrInv(s) && Shape(s) && Enabled(s, EndAccept(i))
    ensures AttrInv(DoEndAccept(s, i))
  {
    hide AttrInv, Stems, EntryFor, Store, TallyOf, Places, InPlace, OwnPlace, ReplyAttr, LogsGrow;
    LeaderAt(s, i);
    SetAttr(s, i, Finished(false));
  }

  lemma StepAttr(s: System, e: Event)
    requires AttrInv(s) && IndexInv(s) && Shape(s) && Enabled(s, e)
    ensures AttrInv(Apply(s, e))
  {
    hide AttrInv, IndexInv;
    match e
    case Begin(r, y, epoch) => BeginAttr(s, r, y, epoch);
    case Propose(i) => ProposeAttr(s, i);
    case HandlePreAccept(r, m) =>
      IndexAt(s, r);
      SentPositive(s, m);
      hide Indexed;
      PreAcceptAttr(s, r, m);
    case HearPreAccept(i, from, reply) => HearAttr(s, i, from, reply);
    case EndPhase1(i) => EndPhase1Attr(s, i);
    case HandleAccept(r, m) => AcceptAttr(s, r, m);
    case HandleCommit(r, m) => AcceptAttr(s, r, m);
    case HearAccept(i, from, reply) => HearAcceptAttr(s, i, from, reply);
    case EndAccept(i) => EndAcceptAttr(s, i);
  }

  lemma IndexAt(s: System, q: nat)
    requires IndexInv(s) && q < |s.replicas|
    ensures Shape(s) && Indexed(s.replicas[q], s.logs[q])
  {
    hide Indexed, LeaderPositive, MsgPositive;
  }

  // ---- runs -----------------------------------------------------------------------------------------

  lemma InitAttr(s: System)
    requires InitState(s)
    ensures AttrInv(s)
  {
    hide LeaderAttr, MsgAttr, DecisionAttr, CommitAttr;
  }

  lemma {:induction false} RunAttr(run: seq<System>, k: nat)
    requires Run(run) && k < |run|
    ensures AttrInv(run[k])
  {
    hide AttrInv, IndexInv, Enabled, Apply, InitState;
    if k == 0 {
      InitAttr(run[0]);
    } else {
      RunAttr(run, k - 1);
      RunIndexed(run, k - 1);
      assert Step(run[k - 1], run[k - 1 + 1]);
      var e :| Enabled(run[k - 1], e) && run[k] == Apply(run[k - 1], e);
      StepAttr(run[k - 1], e);
    }
  }

  /**
   * In every run, what a replica stores for a pre-accept request of another leader has a Seq of at least the request's,
   * above every Seq it stored earlier on the key and no higher than one of the two needs, and as Deps exactly those
   * of the request and the newest instance it knew on the key.
   */
  lemma AnsweredStores(run: seq<System>, k: nat, q: nat, b: nat)
    requires Run(run) && k < |run| && q < |run[k].logs| && b < |run[k].logs[q]|
    requires run[k].logs[q][b].state == PreAccepted && run[k].logs[q][b].i.rid != q
    ensures exists req :: PreAcceptMsg(req) in run[k].msgs && Answers(run[k].logs[q], b, req)
  {
    RunAttr(run, k);
    LogAt(run[k], q, b);
    var m :| m in run[k].msgs && m.PreAcceptMsg? && Answers(run[k].logs[q], b, m.req);
    assert PreAcceptMsg(m.req) == m;
  }

  /** The kind of message a store repeats. */
  ghost predicate Tells(m: Msg, state: InstanceState) {
    match state
    case Init => false
    case PreAccepted => m.PreAcceptMsg?
    case Accepted => m.AcceptMsg?
    case Committed => m.CommitMsg?
  }

  /** In every run, every other store has the command, Seq and Deps of a message of its leader. */
  lemma CopiedStores(run: seq<System>, k: nat, q: nat, b: nat)
    requires Run(run) && k < |run| && q < |run[k].logs| && b < |run[k].logs[q]|
    requires run[k].logs[q][b].state == PreAccepted ==> run[k].logs[q][b].i.rid == q
    ensures var e := run[k].logs[q][b]; exists m :: m in run[k].msgs && Tells(m, e.state) && Carries(m.req, e)
  {
    RunAttr(run, k);
    LogAt(run[k], q, b);
    hide AttrInv, Run, Carries, Answers;
  }

  /** In every run, a replica's table holds its last store of each instance. */
  lemma TablesInEveryRun(run: seq<System>, k: nat, q: nat)
    requires Run(run) && k < |run| && q < |run[k].replicas|
    ensures |run[k].logs| == |run[k].replicas| && TableOk(run[k].replicas[q].cmds, run[k].logs[q])
  {
    RunAttr(run, k);
    hide Run, TableOk, LogAttr, LeadersAttr, MsgsAttr, DecisionsAttr;
  }

  /** In every run, a positive answer tells the Seq and Deps its sender stored. */
  lemma AnswersInEveryRun(run: seq<System>, k: nat, m: Msg)
    requires Run(run) && k < |run| && m in run[k].msgs && m.PreAcceptReply? && m.resp.ok
    ensures ReplyAttr(run[k].logs, m.i, m.from, m.resp, m.at)
  {
    RunAttr(run, k);
    hide Run, AttrInv, ReplyAttr;
    MsgAt(run[k], m);
  }

  /**
   * In every run, phase 1 decides on the Deps of all replicas counted; on the Seq of the leader's own store if they all
   * stored its Deps, and otherwise on the highest of it and of those that did not; and on enough of them.
   */
  lemma DecidedInEveryRun(run: seq<System>, k: nat, i: InstanceId)
    requires Run(run) && k < |run| && i in run[k].decided
    ensures |run[k].logs| > 0 && exists ins :: DecidedFrom(run[k].logs, i, run[k].decided[i], ins)
  {
    RunAttr(run, k);
    hide Run, ReplicasAttr, LeadersAttr, MsgsAttr, DecidedFrom, CommitAttr;
    assert DecisionAttr(run[k].logs, i, run[k].decided[i]);
  }

  /** In every run, what is committed was decided on by a fast quorum of replicas that all stored these Deps. */
  lemma CommittedInEveryRun(run: seq<System>, k: nat, i: InstanceId)
    requires Run(run) && k < |run| && i in run[k].committed
    ensures i in run[k].decided && CommitAttr(run[k].logs, i, run[k].decided[i], run[k].committed[i])
  {
    RunAttr(run, k);
    hide Run, ReplicasAttr, LeadersAttr, MsgsAttr, DecisionAttr, CommitAttr;
  }

  /**
   * How phase 1 ends, by the number counted and whether they agree, with f the replicas that may fail: f and half of
   * it in agreement commit; otherwise more than half of all go on to the accept phase; otherwise it gives up.
   */
  ghost predicate Ends(s: System, s': System, i: InstanceId, count: nat, agreed: bool)
    requires i in s.leaders && s.leaders[i].Collecting?
  {
    var n, f, ins := |s.replicas|, (|s.replicas| - 1) / 2, s.leaders[i].ins;
    if agreed && count >= f + (f + 1) / 2 then
      && i in s'.leaders && s'.leaders[i] == Finished(true)
      && s'.committed == s.committed[i := Attrs(ins.y, ins.seqno, ins.deps)]
    else if 2 * count > n then i in s'.leaders && s'.leaders[i].Accepting? && s'.committed == s.committed
    else s' == s.(leaders := s.leaders[i := Finished(false)])
  }

  lemma QuorumSizes(n: nat)
    requires n > 0
    ensures var f := (n - 1) / 2; FastQuorum(n) == f + (f + 1) / 2
    ensures forall m: nat :: m >= Majority(n) <==> 2 * m > n
  {
  }

  lemma TallyEnds(s: System, i: InstanceId)
    requires Shape(s) && Enabled(s, EndPhase1(i))
    ensures Ends(s, DoEndPhase1(s, i), i, s.leaders[i].tally.preAccepted, !s.leaders[i].tally.isDiff)
  {
    QuorumSizes(|s.replicas|);
    hide Store, EntryFor, FastQuorum, Majority;
  }

  /** In every run, phase 1 ends by the replicas counted and the Deps they stored. */
  lemma PhaseOneEnds(run: seq<System>, k: nat, i: InstanceId)
    requires Run(run) && k < |run| && Shape(run[k]) && Enabled(run[k], EndPhase1(i))
    ensures var s, l := run[k], run[k].leaders[i];
      && InPlace(s.logs, l.counted)
      && Ends(s, Apply(s, EndPhase1(i)), i, |l.counted|, forall q: nat :: !Other(s.logs, l.counted, l.ins.deps, q))
  {
    RunAttr(run, k);
    TallyEnds(run[k], i);
    hide AttrInv, Run, Ends, DoEndPhase1;
    LeaderAt(run[k], i);
    hide AllDeps, HighestSeq, Other, Places, OwnPlace, InPlace;
  }

  // ---- atomic runs ----------------------------------------------------------------------------------

  ghost predicate FreshLog(q: nat, log: seq<Entry>) {
    forall b :: 0 <= b < |log| && log[b].state == PreAccepted && log[b].i.rid == q ==> Fresh(log, b)
  }

  ghost predicate FreshInv(s: System) {
    Shape(s) && forall q :: 0 <= q < |s.logs| ==> FreshLog(q, s.logs[q])
  }

  lemma FreshGrows(q: nat, log: seq<Entry>, e: Entry)
    requires FreshLog(q, log) && (e.state == PreAccepted && e.i.rid == q ==> Fresh(log + [e], |log|))
    ensures FreshLog(q, log + [e])
  {
    var log' := log + [e];
    forall b | 0 <= b < |log'| && log'[b].state == PreAccepted && log'[b].i.rid == q ensures Fresh(log', b) {
      if b < |log| {
        NewestGrows(log, log', b);
        hide Above, OneMore, NewestIs;
        assert log'[b] == log[b];
      }
    }
  }

  lemma StoreStaysFresh(s: System, q: nat, ins: Instance)
    requires FreshInv(s) && q < |s.replicas|
    requires ins.state == PreAccepted && ins.i.rid == q ==>
      Fresh(s.logs[q] + [EntryFor(s.replicas[q], ins)], |s.logs[q]|)
    ensures FreshInv(StoreAt(s, q, ins))
  {
    var e := EntryFor(s.replicas[q], ins);
    assert e.state == ins.state && e.i == ins.i;
    hide Fresh, EntryFor, Store, FreshLog;
    FreshGrows(q, s.logs[q], e);
  }

  /** Nothing but stores counts. */
  lemma SameLogs(s: System, n: System)
    requires FreshInv(s) && n.logs == s.logs && |n.replicas| == |s.replicas|
    ensures FreshInv(n)
  {
  }

  lemma ProposeStaysFresh(s: System, i: InstanceId)
    requires FreshInv(s) && AttrInv(s) && IndexInv(s) && Shape(s) && Enabled(s, Propose(i)) && Current(s, i)
    ensures FreshInv(Apply(s, Propose(i)))
  {
    hide FreshInv, AttrInv, IndexInv, Store, EntryFor, Fresh;
    LeaderAt(s, i);
    KnownPositive(s, i);
    IndexAt(s, i.rid);
    hide Indexed;
    var ins := s.leaders[i].ins;
    StoreFresh(s.replicas[i.rid], s.logs[i.rid], ins);
    StoreStaysFresh(s, i.rid, ins);
    SameLogs(StoreAt(s, i.rid, ins), Apply(s, Propose(i)));
  }

  lemma StepFresh(s: System, e: Event)
    requires FreshInv(s) && AttrInv(s) && IndexInv(s) && Shape(s) && Enabled(s, e) && (e.Propose? ==> Current(s, e.i))
    ensures FreshInv(Apply(s, e))
  {
    hide FreshInv, AttrInv, IndexInv, Store, EntryFor, Fresh;
    match e
    case Propose(i) => ProposeStaysFresh(s, i);
    case HandlePreAccept(r, m) =>
      StoreStaysFresh(s, r, PreAcceptedAs(s.replicas[r], m.req));
      SameLogs(if RefusesPreAccept(s.replicas[r], m.req) then s
        else StoreAt(s, r, PreAcceptedAs(s.replicas[r], m.req)), Apply(s, e));
    case HandleAccept(r, m) =>
      var ins := FromReq(m.req, m.req.seqno, m.req.deps, Accepted);
      StoreStaysFresh(s, r, ins);
      SameLogs(if RefusesAccept(s.replicas[r], m.req) then s else StoreAt(s, r, ins), Apply(s, e));
    case HandleCommit(r, m) => StoreStaysFresh(s, r, FromReq(m.req, m.req.seqno, m.req.deps, Committed));
    case EndPhase1(i) => EndStaysFresh(s, i);
    case EndAccept(i) =>
      var done := s.leaders[i].ins.(state := Committed);
      StoreStaysFresh(s, i.rid, done);
      SameLogs(if s.leaders[i].accepted < Majority(|s.replicas|) then s else StoreAt(s, i.rid, done), Apply(s, e));
    case _ => SameLogs(s, Apply(s, e));
  }

  lemma EndStaysFresh(s: System, i: InstanceId)
    requires FreshInv(s) && Shape(s) && Enabled(s, EndPhase1(i))
    ensures FreshInv(DoEndPhase1(s, i))
  {
    hide FreshInv, Store, EntryFor, Fresh;
    var n, l := |s.replicas|, s.leaders[i];
    var ins, t := Settled(l), l.tally;
    var s0 := s.(decided := s.decided[i := Decision(ins.y, ins.seqno, ins.deps, l.counted)]);
    SameLogs(s, s0);
    if t.preAccepted >= FastQuorum(n) && !t.isDiff {
      StoreStaysFresh(s0, i.rid, ins.(state := Committed));
      SameLogs(StoreAt(s0, i.rid, ins.(state := Committed)), DoEndPhase1(s, i));
    } else if t.preAccepted < Majority(n) {
      SameLogs(s, DoEndPhase1(s, i));
    } else {
      StoreStaysFresh(s0, i.rid, ins.(state := Accepted));
      SameLogs(StoreAt(s0, i.rid, ins.(state := Accepted)), DoEndPhase1(s, i));
    }
  }

  lemma AtomicIsRun(run: seq<System>)
    requires AtomicRun(run)
    ensures Run(run)
  {
    hide Enabled, Apply, InitState, Current;
    forall k | 0 <= k < |run| - 1 ensures Step(run[k], run[k + 1]) {
      assert AtomicStep(run[k], run[k + 1]);
    }
  }

  lemma InitFresh(s: System)
    requires InitState(s)
    ensures FreshInv(s)
  {
    hide Fresh;
  }

  lemma AtomicFresh(s: System, s': System)
    requires AtomicStep(s, s') && FreshInv(s) && AttrInv(s) && IndexInv(s)
    ensures FreshInv(s')
  {
    hide FreshInv, AttrInv, IndexInv, Apply, Current;
    var e :| Enabled(s, e) && (e.Propose? ==> Current(s, e.i)) && s' == Apply(s, e);
    StepFresh(s, e);
  }

  lemma {:induction false} RunFresh(run: seq<System>, k: nat)
    requires AtomicRun(run) && k < |run|
    ensures FreshInv(run[k])
  {
    hide FreshInv, AttrInv, IndexInv, AtomicStep, InitState, Run;
    if k == 0 {
      InitFresh(run[0]);
    } else {
      RunFresh(run, k - 1);
      AtomicIsRun(run);
      RunAttr(run, k - 1);
      RunIndexed(run, k - 1);
      assert AtomicStep(run[k - 1], run[k - 1 + 1]);
      AtomicFresh(run[k - 1], run[k]);
    }
  }

  /**
   * In atomic runs a leader's own first store has the Seq right above every one stored there earlier on the key, and
   * the newest instance on the key, if there is one, as its only dependency.
   */
  lemma OwnStores(run: seq<System>, k: nat, q: nat, b: nat)
    requires AtomicRun(run) && k < |run| && q < |run[k].logs| && b < |run[k].logs[q]|
    requires run[k].logs[q][b].state == PreAccepted && run[k].logs[q][b].i.rid == q
    ensures Fresh(run[k].logs[q], b)
  {
    RunFresh(run, k);
    hide AtomicRun, Fresh;
    assert FreshLog(q, run[k].logs[q]);
  }

  /** In atomic runs every pre-accept store is above all earlier ones on its key, whoever leads it. */
  lemma PreAcceptedAbove(run: seq<System>, k: nat, q: nat, b: nat)
    requires AtomicRun(run) && k < |run| && q < |run[k].logs| && b < |run[k].logs[q]|
    requires run[k].logs[q][b].state == PreAccepted
    ensures Above(run[k].logs[q], b)
  {
    if run[k].logs[q][b].i.rid == q {
      OwnStores(run, k, q, b);
    } else {
      AtomicIsRun(run);
      AnsweredStores(run, k, q, b);
    }
  }

  /** Of two decided commands on a key, the replica through which one sees the other stored it with a higher Seq. */
  lemma SeenIsLower(run: seq<System>, k: nat, q: nat, i: InstanceId, j: InstanceId)
    requires AtomicRun(run) && k < |run| && i in run[k].decided && j in run[k].decided && Sees(run[k], q, i, j)
    ensures var log := run[k].logs[q];
      log[run[k].decided[i].counted[q]].seqno < log[run[k].decided[j].counted[q]].seqno
  {
    AtomicIsRun(run);
    DecidedInEveryRun(run, k, j);
    hide AtomicRun, Run;
    var ins :| DecidedFrom(run[k].logs, j, run[k].decided[j], ins);
    PreAcceptedAbove(run, k, q, run[k].decided[j].counted[q]);
  }
}
