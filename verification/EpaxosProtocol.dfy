/** Replicas exchanging messages that may be lost, delayed, duplicated and reordered; no recovery. */
module EpaxosProtocol {
  import opened Collections
  import opened EpaxosTypes
  import opened EpaxosReplica

  /** Messages stay in the set once sent: delivering one again is a duplicate, never delivering it a loss. */
  datatype Msg =
    | PreAcceptMsg(req: PreAcceptReq)
    | PreAcceptReply(i: InstanceId, from: nat, resp: PreAcceptResp, at: nat)
    | AcceptMsg(req: PreAcceptReq)
    | AcceptReply(i: InstanceId, from: nat, aresp: AcceptResp)
    | CommitMsg(req: PreAcceptReq)

  /** A command leader's progress on one instance; counted maps each replica counted to its log position. */
  datatype Leader =
    | Reading(ins: Instance)
    | Collecting(ins: Instance, tally: Tally, heard: set<nat>, counted: map<nat, nat>)
    | Accepting(ins: Instance, accepted: nat, heard: set<nat>)
    | Finished(ok: bool)

  /** History: one call of the store operation, with the newest instance on the key just before it. */
  datatype Entry = Entry(
    i: InstanceId, y: Command, seqno: nat, deps: set<InstanceId>, state: InstanceState,
    last: Option<(InstanceId, nat)>)

  /** History: what phase 1 settled on. */
  datatype Decision = Decision(y: Command, seqno: nat, deps: set<InstanceId>, counted: map<nat, nat>)

  datatype Attrs = Attrs(y: Command, seqno: nat, deps: set<InstanceId>)

  datatype System = System(
    replicas: seq<Replica>, leaders: map<InstanceId, Leader>, msgs: set<Msg>,
    logs: seq<seq<Entry>>, decided: map<InstanceId, Decision>, committed: map<InstanceId, Attrs>)

  datatype Event =
    | Begin(r: nat, y: Command, epoch: nat)
    | Propose(i: InstanceId)
    | HandlePreAccept(r: nat, m: Msg)
    | HearPreAccept(i: InstanceId, from: nat, reply: Option<Msg>)
    | EndPhase1(i: InstanceId)
    | HandleAccept(r: nat, m: Msg)
    | HearAccept(i: InstanceId, from: nat, reply: Option<Msg>)
    | EndAccept(i: InstanceId)
    | HandleCommit(r: nat, m: Msg)

  // ---- building blocks --------------------------------------------------------------------------

  function LastOn(r: Replica, key: string): Option<(InstanceId, nat)> {
    if key in r.root && r.root[key].lastId.Some? then Some((r.root[key].lastId.value, r.root[key].lastSeq)) else None
  }

  function EntryFor(r: Replica, ins: Instance): Entry {
    Entry(ins.i, ins.y, ins.seqno, ins.deps, ins.state, LastOn(r, ins.y.key))
  }

  ghost predicate Shape(s: System) {
    |s.logs| == |s.replicas| > 0
  }

  function StoreAt(s: System, q: nat, ins: Instance): System
    requires q < |s.replicas| && |s.logs| == |s.replicas|
  {
    s.(replicas := s.replicas[q := Store(s.replicas[q], ins)],
      logs := s.logs[q := s.logs[q] + [EntryFor(s.replicas[q], ins)]])
  }

  function Send(s: System, m: Msg): System {
    s.(msgs := s.msgs + {m})
  }

  function SetLeader(s: System, i: InstanceId, l: Leader): System {
    s.(leaders := s.leaders[i := l])
  }

  function Req(ins: Instance): PreAcceptReq {
    PreAcceptReq(ins.ballot, ins.y, ins.seqno, ins.deps, ins.i)
  }

  function Settled(l: Leader): Instance
    requires l.Collecting?
  {
    var ins := l.ins.(maxSeen := l.tally.maxSeen);
    if l.tally.isDiff then ins.(deps := l.tally.deps, seqno := l.tally.maxSeq) else ins
  }

  /** The commit phase: the leader records the instance as committed and tells everyone. */
  function CommitAt(s: System, ins: Instance): System
    requires ins.i.rid < |s.replicas| && |s.logs| == |s.replicas|
  {
    var done := ins.(state := Committed);
    var s1 := SetLeader(Send(StoreAt(s, ins.i.rid, done), CommitMsg(Req(done))), ins.i, Finished(true));
    s1.(committed := s.committed[ins.i := Attrs(ins.y, ins.seqno, ins.deps)])
  }

  // ---- events -----------------------------------------------------------------------------------

  ghost predicate Enabled(s: System, e: Event)
    requires Shape(s)
  {
    var n := |s.replicas|;
    match e
    case Begin(r, y, epoch) => r < n
    case Propose(i) => i in s.leaders && s.leaders[i].Reading? && i.rid < n
    case HandlePreAccept(r, m) => r < n && m in s.msgs && m.PreAcceptMsg? && m.req.i.rid != r
    case HearPreAccept(i, from, reply) =>
      && i in s.leaders && s.leaders[i].Collecting? && !s.leaders[i].tally.stop && i.rid < n
      && from < n && from != i.rid && from !in s.leaders[i].heard
      && (reply.Some? ==>
        reply.value in s.msgs && reply.value.PreAcceptReply? && reply.value.i == i && reply.value.from == from)
    case EndPhase1(i) =>
      && i in s.leaders && s.leaders[i].Collecting? && i.rid < n && s.leaders[i].ins.i == i
      && (s.leaders[i].tally.stop || forall p :: 0 <= p < n && p != i.rid ==> p in s.leaders[i].heard)
    case HandleAccept(r, m) => r < n && m in s.msgs && m.AcceptMsg? && m.req.i.rid != r
    case HearAccept(i, from, reply) =>
      && i in s.leaders && s.leaders[i].Accepting? && s.leaders[i].accepted < Majority(n) && i.rid < n
      && from < n && from != i.rid && from !in s.leaders[i].heard
      && (reply.Some? ==>
        reply.value in s.msgs && reply.value.AcceptReply? && reply.value.i == i && reply.value.from == from)
    case EndAccept(i) =>
      && i in s.leaders && s.leaders[i].Accepting? && i.rid < n && s.leaders[i].ins.i == i
      && (s.leaders[i].accepted >= Majority(n) || forall p :: 0 <= p < n && p != i.rid ==> p in s.leaders[i].heard)
    case HandleCommit(r, m) => r < n && m in s.msgs && m.CommitMsg? && m.req.i.rid != r
  }

  function DoBegin(s: System, r: nat, y: Command, epoch: nat): System
    requires r < |s.replicas|
  {
    var rep := s.replicas[r];
    var i := InstanceId(r, rep.instanceIdx + 1);
    var (maxSeq, deps) := Interf(rep, y.key);
    var ballot := BallotNumber(epoch, 0, r);
    SetLeader(s.(replicas := s.replicas[r := rep.(instanceIdx := rep.instanceIdx + 1)]), i,
              Reading(Instance(i, ballot, ballot, PreAccepted, y, maxSeq + 1, deps)))
  }

  function DoPropose(s: System, i: InstanceId): System
    requires i in s.leaders && s.leaders[i].Reading? && i.rid < |s.replicas| == |s.logs|
  {
    var ins := s.leaders[i].ins;
    SetLeader(Send(StoreAt(s, i.rid, ins), PreAcceptMsg(Req(ins))), i,
              Collecting(ins, FirstTally(ins), {}, map[i.rid := |s.logs[i.rid]|]))
  }

  function DoPreAccept(s: System, r: nat, req: PreAcceptReq): System
    requires r < |s.replicas| == |s.logs|
  {
    var (rep, resp) := PreAcceptStep(s.replicas[r], req);
    var s1 := if RefusesPreAccept(s.replicas[r], req) then s else StoreAt(s, r, PreAcceptedAs(s.replicas[r], req));
    Send(s1, PreAcceptReply(req.i, r, resp, |s.logs[r]|))
  }

  function DoHear(s: System, i: InstanceId, from: nat, reply: Option<Msg>): System
    requires i in s.leaders && s.leaders[i].Collecting? && |s.replicas| > 0
    requires reply.Some? ==> reply.value.PreAcceptReply?
  {
    var l := s.leaders[i];
    var resp := if reply.None? then None else Some(reply.value.resp);
    var counted := if reply.Some? && reply.value.resp.ok then l.counted[from := reply.value.at] else l.counted;
    SetLeader(s, i, Collecting(l.ins, Count(|s.replicas|, l.ins, l.tally, resp), l.heard + {from}, counted))
  }

  function DoEndPhase1(s: System, i: InstanceId): System
    requires i in s.leaders && s.leaders[i].Collecting? && s.leaders[i].ins.i == i && i.rid < |s.replicas| == |s.logs|
  {
    var n, l := |s.replicas|, s.leaders[i];
    var ins, t := Settled(l), l.tally;
    var decided := s.(decided := s.decided[i := Decision(ins.y, ins.seqno, ins.deps, l.counted)]);
    if t.preAccepted >= FastQuorum(n) && !t.isDiff then CommitAt(decided, ins)
    else if t.preAccepted < Majority(n) then SetLeader(s, i, Finished(false))
    else
      var acc := ins.(state := Accepted);
      SetLeader(Send(StoreAt(decided, i.rid, acc), AcceptMsg(Req(acc))), i, Accepting(acc, 1, {}))
  }

  function DoAccept(s: System, r: nat, req: PreAcceptReq): System
    requires r < |s.replicas| == |s.logs|
  {
    var (rep, resp) := AcceptStep(s.replicas[r], req);
    var s1 := if RefusesAccept(s.replicas[r], req) then s
      else StoreAt(s, r, FromReq(req, req.seqno, req.deps, Accepted));
    Send(s1, AcceptReply(req.i, r, resp))
  }

  function DoHearAccept(s: System, i: InstanceId, from: nat, reply: Option<Msg>): System
    requires i in s.leaders && s.leaders[i].Accepting? && (reply.Some? ==> reply.value.AcceptReply?)
  {
    var l := s.leaders[i];
    var more := if reply.Some? && reply.value.aresp.ok then 1 else 0;
    SetLeader(s, i, Accepting(l.ins, l.accepted + more, l.heard + {from}))
  }

  function DoEndAccept(s: System, i: InstanceId): System
    requires i in s.leaders && s.leaders[i].Accepting? && s.leaders[i].ins.i == i && i.rid < |s.replicas| == |s.logs|
  {
    if s.leaders[i].accepted < Majority(|s.replicas|) then SetLeader(s, i, Finished(false))
    else CommitAt(s, s.leaders[i].ins)
  }

  function DoCommit(s: System, r: nat, req: PreAcceptReq): System
    requires r < |s.replicas| == |s.logs|
  {
    StoreAt(s, r, FromReq(req, req.seqno, req.deps, Committed))
  }

  ghost function Apply(s: System, e: Event): System
    requires Shape(s) && Enabled(s, e)
  {
    match e
    case Begin(r, y, epoch) => DoBegin(s, r, y, epoch)
    case Propose(i) => DoPropose(s, i)
    case HandlePreAccept(r, m) => DoPreAccept(s, r, m.req)
    case HearPreAccept(i, from, reply) => DoHear(s, i, from, reply)
    case EndPhase1(i) => DoEndPhase1(s, i)
    case HandleAccept(r, m) => DoAccept(s, r, m.req)
    case HearAccept(i, from, reply) => DoHearAccept(s, i, from, reply)
    case EndAccept(i) => DoEndAccept(s, i)
    case HandleCommit(r, m) => DoCommit(s, r, m.req)
  }

  /** The events at a replica are the handlers: they leave what these leave, and the answers are theirs. */
  lemma HandlersRun(s: System, r: nat, req: PreAcceptReq)
    requires Shape(s) && r < |s.replicas|
    ensures var (rep, resp) := PreAcceptStep(s.replicas[r], req);
      && DoPreAccept(s, r, req).replicas == s.replicas[r := rep]
      && PreAcceptReply(req.i, r, resp, |s.logs[r]|) in DoPreAccept(s, r, req).msgs
    ensures var (rep, resp) := AcceptStep(s.replicas[r], req);
      DoAccept(s, r, req).replicas == s.replicas[r := rep] && AcceptReply(req.i, r, resp) in DoAccept(s, r, req).msgs
    ensures DoCommit(s, r, req).replicas == s.replicas[r := CommitStep(s.replicas[r], req)]
  {
    hide Store, PreAcceptedAs;
    assert s.replicas[r := s.replicas[r]] == s.replicas;
  }

  ghost predicate InitState(s: System) {
    && Shape(s) && s.leaders == map[] && s.msgs == {} && s.decided == map[] && s.committed == map[]
    && forall q :: 0 <= q < |s.replicas| ==> s.replicas[q] == Replica(map[], map[], 0) && s.logs[q] == []
  }

  ghost predicate Step(s: System, s': System) {
    Shape(s) && exists e :: Enabled(s, e) && s' == Apply(s, e)
  }

  /** A run: states linked by events, from an initial state. */
  ghost predicate Run(run: seq<System>) {
    && |run| > 0 && InitState(run[0])
    && forall k :: 0 <= k < |run| - 1 ==> Step(run[k], run[k + 1])
  }
}
