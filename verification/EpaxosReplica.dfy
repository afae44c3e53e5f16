/** One replica: its instance table, its per-key interference index, and its message handlers. */
module EpaxosReplica {
  import opened Collections
  import opened EpaxosTypes

  predicate LessBallot(a: BallotNumber, b: BallotNumber) {
    if a.epoch == b.epoch then
      if a.b == b.b then a.r < b.r else a.b < b.b
    else a.epoch < b.epoch
  }

  /** Ballots are totally ordered: by epoch, then by b, then by r. */
  lemma BallotOrder(a: BallotNumber, b: BallotNumber, c: BallotNumber)
    ensures a.epoch < b.epoch ==> LessBallot(a, b)
    ensures a.epoch == b.epoch && a.b < b.b ==> LessBallot(a, b)
    ensures a.epoch == b.epoch && a.b == b.b && a.r < b.r ==> LessBallot(a, b)
    ensures !LessBallot(a, a)
    ensures a == b || LessBallot(a, b) || LessBallot(b, a)
    ensures LessBallot(a, b) && LessBallot(b, c) ==> LessBallot(a, c)
  {
  }

  /** The newest instances that touched a key: of any kind, and the newest write. */
  datatype KeyDep = KeyDep(lastSeq: nat, lastId: Option<InstanceId>, wSeq: nat, wId: Option<InstanceId>)

  datatype Replica = Replica(cmds: map<InstanceId, Instance>, root: map<string, KeyDep>, instanceIdx: nat)

  datatype PreAcceptReq = PreAcceptReq(
    ballot: BallotNumber, y: Command, seqno: nat, deps: set<InstanceId>, i: InstanceId)
  datatype PreAcceptResp = PreAcceptResp(ok: bool, ballot: BallotNumber, seqno: nat, deps: set<InstanceId>)
  datatype AcceptResp = AcceptResp(ok: bool, ballot: BallotNumber)

  function NewKeyDep(root: map<string, KeyDep>, key: string): KeyDep {
    if key in root then root[key] else KeyDep(0, None, 0, None)
  }

  function Touch(dep: KeyDep, ins: Instance): KeyDep {
    var d := if dep.lastSeq < ins.seqno then dep.(lastSeq := ins.seqno, lastId := Some(ins.i)) else dep;
    if ins.y.op == W && d.wSeq < ins.seqno then d.(wSeq := ins.seqno, wId := Some(ins.i)) else d
  }

  /** Records an instance and keeps the index up to date. */
  function Store(r: Replica, ins: Instance): Replica {
    r.(cmds := r.cmds[ins.i := ins], root := r.root[ins.y.key := Touch(NewKeyDep(r.root, ins.y.key), ins)])
  }

  /** The attributes a command on key must respect: the highest sequence number and the instance that has it. */
  function Interf(r: Replica, key: string): (nat, set<InstanceId>) {
    if key in r.root then
      (r.root[key].lastSeq, match r.root[key].lastId case None => {} case Some(id) => {id})
    else (0, {})
  }

  function FromReq(req: PreAcceptReq, seqno: nat, deps: set<InstanceId>, state: InstanceState): Instance {
    Instance(req.i, req.ballot, req.ballot, state, req.y, seqno, deps)
  }

  predicate RefusesPreAccept(r: Replica, req: PreAcceptReq) {
    req.i in r.cmds && (LessBallot(req.ballot, r.cmds[req.i].maxSeen) || r.cmds[req.i].state == Committed)
  }

  /** The instance a replica records for a pre-accept request. */
  function PreAcceptedAs(r: Replica, req: PreAcceptReq): Instance {
    var (maxSeq, deps) := Interf(r, req.y.key);
    FromReq(req, if req.seqno > maxSeq then req.seqno else maxSeq + 1, deps + req.deps, PreAccepted)
  }

  function PreAcceptStep(r: Replica, req: PreAcceptReq): (Replica, PreAcceptResp) {
    if RefusesPreAccept(r, req) then (r, PreAcceptResp(false, r.cmds[req.i].maxSeen, 0, {}))
    else
      var ins := PreAcceptedAs(r, req);
      (Store(r, ins), PreAcceptResp(true, ins.ballot, ins.seqno, ins.deps))
  }

  predicate RefusesAccept(r: Replica, req: PreAcceptReq) {
    req.i in r.cmds && (LessBallot(req.ballot, r.cmds[req.i].ballot) || r.cmds[req.i].state == Committed)
  }

  /** The answer is negative whether or not the instance was recorded. */
  function AcceptStep(r: Replica, req: PreAcceptReq): (Replica, AcceptResp) {
    if RefusesAccept(r, req) then (r, AcceptResp(false, r.cmds[req.i].ballot))
    else (Store(r, FromReq(req, req.seqno, req.deps, Accepted)), AcceptResp(false, req.ballot))
  }

  function CommitStep(r: Replica, req: PreAcceptReq): Replica {
    Store(r, FromReq(req, req.seqno, req.deps, Committed))
  }

  /** The replica as an object that its handlers update in place. */
  class State {
    var cmds: map<InstanceId, Instance>
    var root: map<string, KeyDep>
    var instanceIdx: nat

    constructor ()
      ensures Value() == Replica(map[], map[], 0)
    {
      cmds, root, instanceIdx := map[], map[], 0;
    }

    function Value(): Replica
      reads this
    {
      Replica(cmds, root, instanceIdx)
    }

    method SetCmd(ins: Instance)
      modifies this`cmds, this`root
      ensures Value() == Store(old(Value()), ins)
    {
      cmds := cmds[ins.i := ins];
      var dep := KeyDep(0, None, 0, None);
      if ins.y.key in root {
        dep := root[ins.y.key];
      }
      if dep.lastSeq < ins.seqno {
        dep := dep.(lastSeq := ins.seqno, lastId := Some(ins.i));
      }
      if ins.y.op == W && dep.wSeq < ins.seqno {
        dep := dep.(wSeq := ins.seqno, wId := Some(ins.i));
      }
      root := root[ins.y.key := dep];
    }

    method AllocInstance() returns (next: nat)
      modifies this`instanceIdx
      ensures next == instanceIdx == old(instanceIdx) + 1
    {
      next := instanceIdx + 1;
      instanceIdx := next;
    }

    method PreAccept(req: PreAcceptReq) returns (resp: PreAcceptResp)
      modifies this`cmds, this`root
      ensures (Value(), resp) == PreAcceptStep(old(Value()), req)
      ensures resp.ok <==> (req.i in old(cmds) ==>
        old(cmds)[req.i].state != Committed && !LessBallot(req.ballot, old(cmds)[req.i].maxSeen))
      ensures if resp.ok
        then resp.ballot == req.ballot && req.i in cmds && cmds[req.i].state == PreAccepted && cmds[req.i].y == req.y &&
             cmds[req.i].seqno == resp.seqno && cmds[req.i].deps == resp.deps
        else Value() == old(Value()) && resp.ballot == old(cmds)[req.i].maxSeen
    {
      if req.i in cmds {
        var curr := cmds[req.i];
        if LessBallot(req.ballot, curr.maxSeen) || curr.state == Committed {
          return PreAcceptResp(false, curr.maxSeen, 0, {});
        }
      }
      var (maxSeq, cmdDeps) := Interf(Value(), req.y.key);
      var merged := cmdDeps + req.deps;
      if req.seqno > maxSeq {
        maxSeq := req.seqno;
      } else {
        maxSeq := maxSeq + 1;
      }
      var ins := Instance(req.i, req.ballot, req.ballot, PreAccepted, req.y, maxSeq, merged);
      SetCmd(ins);
      resp := PreAcceptResp(true, ins.ballot, ins.seqno, ins.deps);
    }

    method Accept(req: PreAcceptReq) returns (resp: AcceptResp)
      modifies this`cmds, this`root
      ensures (Value(), resp) == AcceptStep(old(Value()), req)
      ensures if req.i in old(cmds) && (old(cmds)[req.i].state == Committed ||
          LessBallot(req.ballot, old(cmds)[req.i].ballot))
        then Value() == old(Value()) && resp.ballot == old(cmds)[req.i].ballot
        else resp.ballot == req.ballot && req.i in cmds &&
             cmds[req.i] == Instance(req.i, req.ballot, req.ballot, Accepted, req.y, req.seqno, req.deps)
    {
      if req.i in cmds {
        var curr := cmds[req.i];
        if LessBallot(req.ballot, curr.ballot) || curr.state == Committed {
          return AcceptResp(false, curr.ballot);
        }
      }
      SetCmd(Instance(req.i, req.ballot, req.ballot, Accepted, req.y, req.seqno, req.deps));
      resp := AcceptResp(false, req.ballot);
    }

    method Commit(req: PreAcceptReq)
      modifies this`cmds, this`root
      ensures Value() == CommitStep(old(Value()), req)
    {
      SetCmd(Instance(req.i, req.ballot, req.ballot, Committed, req.y, req.seqno, req.deps));
    }
  }

  // ---- counting replies -------------------------------------------------------------------------

  function Majority(n: nat): nat {
    n / 2 + 1
  }

  function FastQuorum(n: nat): nat
    requires n > 0
  {
    var f := n - Majority(n);
    f + (f + 1) / 2
  }

  /** The leader's running tally of pre-accept replies. */
  datatype Tally = Tally(
    deps: set<InstanceId>, maxSeq: nat, isDiff: bool, preAccepted: nat, maxSeen: BallotNumber, stop: bool)

  function FirstTally(ins: Instance): Tally {
    Tally(ins.deps, ins.seqno, false, 1, ins.maxSeen, false)
  }

  /** None is a failed call. */
  function Count(n: nat, ins: Instance, t: Tally, reply: Option<PreAcceptResp>): Tally
    requires n > 0
  {
    match reply
    case None => t
    case Some(resp) =>
      if !resp.ok then
        if LessBallot(t.maxSeen, resp.ballot) then t.(maxSeen := resp.ballot) else t
      else
        var u := if ins.deps != resp.deps
                 then t.(isDiff := true, deps := t.deps + resp.deps,
                         maxSeq := if resp.seqno > t.maxSeq then resp.seqno else t.maxSeq)
                 else t;
        var v := u.(preAccepted := u.preAccepted + 1);
        v.(stop := v.preAccepted >= FastQuorum(n) || (v.isDiff && v.preAccepted >= Majority(n)))
  }

  function CountAll(n: nat, ins: Instance, t: Tally, replies: seq<Option<PreAcceptResp>>): Tally
    requires n > 0
    decreases |replies|
  {
    if replies == [] || t.stop then t else CountAll(n, ins, Count(n, ins, t, replies[0]), replies[1..])
  }

  /** The loop over the results of the pre-accept calls, in the order they arrive. */
  method Collect(n: nat, ins: Instance, replies: seq<Option<PreAcceptResp>>) returns (t: Tally)
    requires n > 0
    ensures t == CountAll(n, ins, FirstTally(ins), replies)
  {
    var deps, maxSeq, isDiff, preAccepted, maxSeen, stop := ins.deps, ins.seqno, false, 1, ins.maxSeen, false;
    var i := 0;
    assert replies[0..] == replies;
    while i < |replies| && !stop
      invariant 0 <= i <= |replies|
      invariant CountAll(n, ins, Tally(deps, maxSeq, isDiff, preAccepted, maxSeen, stop), replies[i..]) ==
        CountAll(n, ins, FirstTally(ins), replies)
    {
      assert replies[i..][0] == replies[i] && replies[i..][1..] == replies[i + 1..];
      var reply := replies[i];
      i := i + 1;
      if reply.Some? {
        var resp := reply.value;
        if !resp.ok {
          if LessBallot(maxSeen, resp.ballot) {
            maxSeen := resp.ballot;
          }
        } else {
          if ins.deps != resp.deps {
            isDiff := true;
            deps := deps + resp.deps;
            if resp.seqno > maxSeq {
              maxSeq := resp.seqno;
            }
          }
          preAccepted := preAccepted + 1;
          stop := preAccepted >= FastQuorum(n) || (isDiff && preAccepted >= Majority(n));
        }
      }
    }
    t := Tally(deps, maxSeq, isDiff, preAccepted, maxSeen, stop);
  }

  /** How many replies the loop takes before it stops. */
  function Taken(n: nat, ins: Instance, t: Tally, replies: seq<Option<PreAcceptResp>>): (m: nat)
    requires n > 0
    ensures m <= |replies|
    decreases |replies|
  {
    if replies == [] || t.stop then 0 else 1 + Taken(n, ins, Count(n, ins, t, replies[0]), replies[1..])
  }

  predicate Positive(reply: Option<PreAcceptResp>) {
    reply.Some? && reply.value.ok
  }

  /** A positive answer with other dependencies than the leader's. */
  predicate Differs(ins: Instance, reply: Option<PreAcceptResp>) {
    Positive(reply) && reply.value.deps != ins.deps
  }

  function PositiveCount(replies: seq<Option<PreAcceptResp>>): nat {
    if replies == [] then 0 else (if Positive(replies[0]) then 1 else 0) + PositiveCount(replies[1..])
  }

  /** r is t with exactly these replies counted. */
  ghost predicate Counted(ins: Instance, t: Tally, taken: seq<Option<PreAcceptResp>>, r: Tally) {
    && r.preAccepted == t.preAccepted + PositiveCount(taken)
    && (r.isDiff <==> t.isDiff || exists k :: 0 <= k < |taken| && Differs(ins, taken[k]))
    && t.deps <= r.deps && (forall k :: 0 <= k < |taken| && Positive(taken[k]) ==> taken[k].value.deps <= r.deps)
    && (forall d :: d in r.deps ==>
      d in t.deps || exists k :: 0 <= k < |taken| && Positive(taken[k]) && d in taken[k].value.deps)
    && t.maxSeq <= r.maxSeq &&
      (forall k :: 0 <= k < |taken| && Differs(ins, taken[k]) ==> taken[k].value.seqno <= r.maxSeq)
    && (r.maxSeq == t.maxSeq ||
      exists k :: 0 <= k < |taken| && Differs(ins, taken[k]) && taken[k].value.seqno == r.maxSeq)
  }

  lemma CountedFirst(n: nat, ins: Instance, t: Tally, reply: Option<PreAcceptResp>)
    requires n > 0 && ins.deps <= t.deps
    ensures Counted(ins, t, [reply], Count(n, ins, t, reply))
  {
    assert PositiveCount([reply]) == if Positive(reply) then 1 else 0;
    assert [reply][0] == reply;
  }

  lemma CountedBoth(ins: Instance, t: Tally, first: Option<PreAcceptResp>, u: Tally, more: seq<Option<PreAcceptResp>>,
      r: Tally)
    requires Counted(ins, t, [first], u) && Counted(ins, u, more, r)
    ensures Counted(ins, t, [first] + more, r)
  {
    var all := [first] + more;
    assert all[1..] == more && [first][1..] == [] && all[0] == first == [first][0];
    assert forall k :: 0 < k < |all| ==> all[k] == more[k - 1];
    assert forall k :: 0 <= k < |more| ==> more[k] == all[k + 1];
    assert PositiveCount([first]) == (if Positive(first) then 1 else 0) + PositiveCount([first][1..]);
  }

  /**
   * What the tally amounts to: the positive answers taken, each once, all their dependencies and no
   * others, and the highest Seq among those that differ; the loop stops early only when it may.
   */
  lemma {:induction false} CountAllSpec(n: nat, ins: Instance, t: Tally, replies: seq<Option<PreAcceptResp>>)
    requires n > 0 && ins.deps <= t.deps
    ensures var m, r := Taken(n, ins, t, replies), CountAll(n, ins, t, replies);
      Counted(ins, t, replies[..m], r) && (m < |replies| ==> r.stop)
    decreases |replies|
  {
    var m, r := Taken(n, ins, t, replies), CountAll(n, ins, t, replies);
    if replies == [] || t.stop {
      assert replies[..m] == [];
    } else {
      var u := Count(n, ins, t, replies[0]);
      CountedFirst(n, ins, t, replies[0]);
      CountAllSpec(n, ins, u, replies[1..]);
      assert replies[..m] == [replies[0]] + replies[1..][..m - 1];
      hide Counted;
      CountedBoth(ins, t, replies[0], u, replies[1..][..m - 1], r);
    }
  }

  /** The answers taken are enough: the last is positive and makes a fast quorum, or a majority with a difference. */
  ghost predicate Enough(n: nat, ins: Instance, taken: seq<Option<PreAcceptResp>>)
    requires n > 0
  {
    && taken != [] && Positive(taken[|taken| - 1])
    && (1 + PositiveCount(taken) >= FastQuorum(n) ||
        (1 + PositiveCount(taken) >= Majority(n) && exists k :: 0 <= k < |taken| && Differs(ins, taken[k])))
  }

  lemma {:induction false} PositiveCountLast(replies: seq<Option<PreAcceptResp>>, reply: Option<PreAcceptResp>)
    ensures PositiveCount(replies + [reply]) == PositiveCount(replies) + (if Positive(reply) then 1 else 0)
  {
    if replies == [] {
      assert replies + [reply] == [reply] && [reply][1..] == [];
    } else {
      PositiveCountLast(replies[1..], reply);
      assert (replies + [reply])[1..] == replies[1..] + [reply];
    }
  }

  /** What the tally and the answers taken so far say of stopping. */
  ghost predicate StopsRight(n: nat, ins: Instance, taken: seq<Option<PreAcceptResp>>, t: Tally)
    requires n > 0
  {
    && t.preAccepted == 1 + PositiveCount(taken)
    && (t.isDiff <==> exists k :: 0 <= k < |taken| && Differs(ins, taken[k]))
    && (t.stop <==> Enough(n, ins, taken))
  }

  lemma StopsNext(n: nat, ins: Instance, taken: seq<Option<PreAcceptResp>>, t: Tally, reply: Option<PreAcceptResp>)
    requires n > 0 && StopsRight(n, ins, taken, t) && !t.stop
    ensures StopsRight(n, ins, taken + [reply], Count(n, ins, t, reply))
  {
    PositiveCountLast(taken, reply);
    var all := taken + [reply];
    assert all[|taken|] == reply && forall k :: 0 <= k < |taken| ==> all[k] == taken[k];
    hide FastQuorum, Majority, PositiveCount;
    assert Differs(ins, reply) ==> Differs(ins, all[|taken|]);
    if k :| 0 <= k < |taken| && Differs(ins, taken[k]) {
      assert Differs(ins, all[k]);
    }
  }

  lemma {:induction false} StopsFrom(n: nat, ins: Instance, taken: seq<Option<PreAcceptResp>>, t: Tally,
      rest: seq<Option<PreAcceptResp>>)
    requires n > 0 && StopsRight(n, ins, taken, t)
    ensures var m, r := Taken(n, ins, t, rest), CountAll(n, ins, t, rest);
      && StopsRight(n, ins, taken + rest[..m], r) && (m < |rest| ==> r.stop)
      && (forall j :: 0 <= j < m ==> !Enough(n, ins, taken + rest[..j]))
    decreases |rest|
  {
    var m := Taken(n, ins, t, rest);
    hide StopsRight, Enough, Count;
    if rest == [] || t.stop {
      assert taken + rest[..m] == taken;
    } else {
      var u := Count(n, ins, t, rest[0]);
      StopsNext(n, ins, taken, t, rest[0]);
      NotEnough(n, ins, taken, t);
      StopsFrom(n, ins, taken + [rest[0]], u, rest[1..]);
      OneBefore(taken, rest, m);
      forall j | 0 <= j < m ensures !Enough(n, ins, taken + rest[..j]) {
        if j == 0 {
          assert taken + rest[..j] == taken;
        } else {
          OneBefore(taken, rest, j);
        }
      }
    }
  }

  lemma OneBefore<T>(a: seq<T>, b: seq<T>, j: nat)
    requires 0 < j <= |b|
    ensures a + [b[0]] + b[1..][..j - 1] == a + b[..j]
  {
  }

  lemma NotEnough(n: nat, ins: Instance, taken: seq<Option<PreAcceptResp>>, t: Tally)
    requires n > 0 && StopsRight(n, ins, taken, t) && !t.stop
    ensures !Enough(n, ins, taken)
  {
  }

  /** The loop takes answers up to the first that makes them enough, and all of them if none does. */
  lemma StopsAtFirst(n: nat, ins: Instance, replies: seq<Option<PreAcceptResp>>)
    requires n > 0
    ensures var m, r := Taken(n, ins, FirstTally(ins), replies), CountAll(n, ins, FirstTally(ins), replies);
      && (forall j :: 0 <= j < m ==> !Enough(n, ins, replies[..j]))
      && (m < |replies| ==> Enough(n, ins, replies[..m])) && (r.stop <==> Enough(n, ins, replies[..m]))
  {
    StopsFrom(n, ins, [], FirstTally(ins), replies);
    var m := Taken(n, ins, FirstTally(ins), replies);
    assert forall j :: 0 <= j <= m ==> [] + replies[..j] == replies[..j];
  }

  // ---- the highest ballot seen --------------------------------------------------------------------

  predicate Refusal(reply: Option<PreAcceptResp>) {
    reply.Some? && !reply.value.ok
  }

  /** The highest of a ballot and those of the refusals. */
  ghost predicate HighestSeen(first: BallotNumber, taken: seq<Option<PreAcceptResp>>, b: BallotNumber) {
    && !LessBallot(b, first)
    && (forall k :: 0 <= k < |taken| && Refusal(taken[k]) ==> !LessBallot(b, taken[k].value.ballot))
    && (b == first || exists k :: 0 <= k < |taken| && Refusal(taken[k]) && taken[k].value.ballot == b)
  }

  /** The tally keeps the highest ballot it was refused with. */
  lemma {:induction false} SeenSpec(n: nat, ins: Instance, t: Tally, replies: seq<Option<PreAcceptResp>>)
    requires n > 0
    ensures var m, r := Taken(n, ins, t, replies), CountAll(n, ins, t, replies);
      HighestSeen(t.maxSeen, replies[..m], r.maxSeen)
    decreases |replies|
  {
    var m, r := Taken(n, ins, t, replies), CountAll(n, ins, t, replies);
    if replies == [] || t.stop {
      assert replies[..m] == [];
    } else {
      var u := Count(n, ins, t, replies[0]);
      SeenSpec(n, ins, u, replies[1..]);
      SeenBoth(t.maxSeen, replies[0], u.maxSeen, replies[1..][..m - 1], r.maxSeen);
      assert replies[..m] == [replies[0]] + replies[1..][..m - 1];
    }
  }

  lemma SeenBoth(a: BallotNumber, reply: Option<PreAcceptResp>, b: BallotNumber, more: seq<Option<PreAcceptResp>>,
      c: BallotNumber)
    requires b == (if Refusal(reply) && LessBallot(a, reply.value.ballot) then reply.value.ballot else a)
    requires HighestSeen(b, more, c)
    ensures HighestSeen(a, [reply] + more, c)
  {
    var all := [reply] + more;
    assert all[0] == reply && forall k :: 0 < k < |all| ==> all[k] == more[k - 1];
    if k :| 0 <= k < |more| && Refusal(more[k]) && more[k].value.ballot == c {
      assert all[k + 1] == more[k];
    }
    forall k | 0 <= k < |all| && Refusal(all[k]) ensures !LessBallot(c, all[k].value.ballot) {
      if k == 0 {
        BallotOrder(c, b, reply.value.ballot);
      } else {
        assert all[k] == more[k - 1];
      }
    }
  }

  /** A fast quorum is a majority exactly for odd sizes and for sizes from 8 on; otherwise two can be disjoint. */
  lemma FastQuorumIsMajority(n: nat)
    requires n > 1
    ensures FastQuorum(n) >= Majority(n) <==> n % 2 == 1 || n >= 8
    ensures FastQuorum(n) < Majority(n) ==> 2 * FastQuorum(n) <= n
  {
  }
}
