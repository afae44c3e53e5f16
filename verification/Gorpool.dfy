/** The goroutine pool as interleaved steps of callers and workers. */
module Gorpool {
  /** A task stands for one call of Go, so each is submitted once. */
  type Task = nat

  /** Where a worker is: in its select, just woken by its timer, running a task, gone. */
  datatype Pc = Select | TimedOut | Running(task: Task) | Down

  /** `last` is history: what the latest call that took this worker was given. */
  datatype Worker = Worker(ch: seq<Task>, idx: int, pc: Pc, last: Task)

  /** A caller of Go: it found no idle worker, it is about to send to one, or it has sent and returned. */
  datatype Call = Spawning | Sending(w: nat) | Sent(w: nat)

  datatype Pool = Pool(
    workers: seq<Worker>, idle: seq<nat>, calls: map<Task, Call>, started: set<Task>, done: set<Task>)

  datatype Event =
    | Claim(t: Task)
    | Spawn(t: Task)
    | SendTask(t: Task)
    | Receive(w: nat)
    | Finish(w: nat)
    | Timeout(w: nat)
    | CheckIdle(w: nat)

  predicate Enabled(s: Pool, e: Event) {
    match e
    case Claim(t) => t !in s.calls && (|s.idle| > 0 ==> s.idle[|s.idle| - 1] < |s.workers|)
    case Spawn(t) => t in s.calls && s.calls[t] == Spawning
    case SendTask(t) =>
      t in s.calls && s.calls[t].Sending? && s.calls[t].w < |s.workers| && |s.workers[s.calls[t].w].ch| < 1
    case Receive(w) => w < |s.workers| && s.workers[w].pc == Select && s.workers[w].ch != []
    case Finish(w) => w < |s.workers| && s.workers[w].pc.Running?
    case Timeout(w) => w < |s.workers| && s.workers[w].pc == Select
    case CheckIdle(w) => w < |s.workers| && s.workers[w].pc == TimedOut && (s.workers[w].idx >= 0 ==> Removable(s, w))
  }

  /** The indices that removal uses are in range; NeverStuck shows they always are. */
  predicate Removable(s: Pool, w: nat) {
    |s.idle| > 0 && s.idle[|s.idle| - 1] < |s.workers| && w < |s.workers| && 0 <= s.workers[w].idx < |s.idle|
  }

  function SetWorker(s: Pool, w: nat, x: Worker): Pool
    requires w < |s.workers|
  {
    s.(workers := s.workers[w := x])
  }

  function DoClaim(s: Pool, t: Task): Pool
    requires |s.idle| > 0 ==> s.idle[|s.idle| - 1] < |s.workers|
  {
    if |s.idle| > 0 then
      var w := s.idle[|s.idle| - 1];
      SetWorker(s, w, s.workers[w].(idx := -1, last := t)).(idle := s.idle[..|s.idle| - 1],
        calls := s.calls[t := Sending(w)])
    else s.(calls := s.calls[t := Spawning])
  }

  function DoSpawn(s: Pool, t: Task): Pool {
    s.(workers := s.workers + [Worker([], -1, Select, t)], calls := s.calls[t := Sending(|s.workers|)])
  }

  function DoSend(s: Pool, t: Task): Pool
    requires t in s.calls && s.calls[t].Sending? && s.calls[t].w < |s.workers|
  {
    var w := s.calls[t].w;
    SetWorker(s, w, s.workers[w].(ch := s.workers[w].ch + [t])).(calls := s.calls[t := Sent(w)])
  }

  function DoReceive(s: Pool, w: nat): Pool
    requires w < |s.workers| && s.workers[w].ch != []
  {
    var x := s.workers[w];
    SetWorker(s, w, x.(ch := x.ch[1..], pc := Running(x.ch[0]))).(started := s.started + {x.ch[0]})
  }

  function DoFinish(s: Pool, w: nat): Pool
    requires w < |s.workers| && s.workers[w].pc.Running?
  {
    var x := s.workers[w];
    SetWorker(s, w, x.(idx := |s.idle|, pc := Select)).(idle := s.idle + [w], done := s.done + {x.pc.task})
  }

  /** Swap-remove from the idle list: the last worker takes the freed place. */
  function DoCheckIdle(s: Pool, w: nat): Pool
    requires w < |s.workers| && (s.workers[w].idx >= 0 ==> Removable(s, w))
  {
    var i := s.workers[w].idx;
    if i >= 0 then
      var last := s.idle[|s.idle| - 1];
      var s1 := SetWorker(s, last, s.workers[last].(idx := i));
      SetWorker(s1, w, s1.workers[w].(pc := Down)).(idle := s.idle[i := last][..|s.idle| - 1])
    else SetWorker(s, w, s.workers[w].(pc := Select))
  }

  function Apply(s: Pool, e: Event): Pool
    requires Enabled(s, e)
  {
    match e
    case Claim(t) => DoClaim(s, t)
    case Spawn(t) => DoSpawn(s, t)
    case SendTask(t) => DoSend(s, t)
    case Receive(w) => DoReceive(s, w)
    case Finish(w) => DoFinish(s, w)
    case Timeout(w) => SetWorker(s, w, s.workers[w].(pc := TimedOut))
    case CheckIdle(w) => DoCheckIdle(s, w)
  }

  // ---- the invariant ----------------------------------------------------------------------------

  /** A worker that waits in its select or is about to look at its index. */
  predicate Resting(x: Worker) {
    x.pc == Select || x.pc == TimedOut
  }

  /** The idle list and the indices agree: idle[k].idx == k, and an idle worker is at rest. */
  ghost predicate IdleOk(s: Pool) {
    forall k :: 0 <= k < |s.idle| ==>
      s.idle[k] < |s.workers| && s.workers[s.idle[k]].idx == k && Resting(s.workers[s.idle[k]])
  }

  /** A caller holds w and has not sent yet. */
  predicate HeldBy(s: Pool, w: nat, t: Task) {
    t in s.calls && s.calls[t] == Sending(w)
  }

  /** The task was sent to w and has not started. */
  predicate WaitsAt(s: Pool, w: nat, t: Task) {
    t in s.calls && s.calls[t] == Sent(w) && t !in s.started
  }

  predicate RunsAt(s: Pool, w: nat, t: Task) {
    t in s.calls && s.calls[t] == Sent(w) && t in s.started && t !in s.done
  }

  /**
   * A worker is idle (its index is its place), held by one caller, loaded with one task,
   * running one task, or gone with an empty channel; there is no sixth case.
   */
  ghost predicate WorkerOk(s: Pool, w: nat)
    requires w < |s.workers|
  {
    var x := s.workers[w];
    match x.pc
    case Running(t) => t == x.last && x.idx == -1 && x.ch == [] && RunsAt(s, w, t)
    case Down => x.ch == []
    case _ =>
      || (0 <= x.idx < |s.idle| && s.idle[x.idx] == w && x.ch == [])
      || (x.idx == -1 && x.ch == [] && HeldBy(s, w, x.last))
      || (x.idx == -1 && x.ch == [x.last] && WaitsAt(s, w, x.last))
  }

  ghost predicate WorkersOk(s: Pool) {
    forall w :: 0 <= w < |s.workers| ==> WorkerOk(s, w)
  }

  /** A call that is sending holds its worker; a task once sent waits, runs or is done, at that worker. */
  ghost predicate CallOk(s: Pool, t: Task)
    requires t in s.calls
  {
    match s.calls[t]
    case Spawning => t !in s.started
    case Sending(w) =>
      w < |s.workers| && t !in s.started &&
        var x := s.workers[w]; x.last == t && Resting(x) && x.idx == -1 && x.ch == []
    case Sent(w) =>
      && w < |s.workers|
      && (t !in s.started ==> var x := s.workers[w]; x.last == t && Resting(x) && x.idx == -1 && x.ch == [t])
      && (t in s.started && t !in s.done ==> s.workers[w].pc == Running(t))
  }

  ghost predicate CallsOk(s: Pool) {
    && (forall t :: t in s.calls ==> CallOk(s, t))
    && s.started <= s.calls.Keys && s.done <= s.started
  }

  ghost predicate Inv(s: Pool) {
    IdleOk(s) && WorkersOk(s) && CallsOk(s)
  }

  lemma ClaimKeeps(s: Pool, t: Task)
    requires Inv(s) && Enabled(s, Claim(t))
    ensures Inv(DoClaim(s, t))
  {
    var n := DoClaim(s, t);
    assert |s.idle| > 0 ==> WorkerOk(s, s.idle[|s.idle| - 1]);
    forall v | 0 <= v < |n.workers| ensures WorkerOk(n, v) {
      assert v < |s.workers| ==> WorkerOk(s, v);
    }
    forall u | u in n.calls ensures CallOk(n, u) {
      assert u in s.calls ==> CallOk(s, u);
    }
  }

  lemma SpawnKeeps(s: Pool, t: Task)
    requires Inv(s) && Enabled(s, Spawn(t))
    ensures Inv(DoSpawn(s, t))
  {
    var n := DoSpawn(s, t);
    forall v | 0 <= v < |n.workers| ensures WorkerOk(n, v) {
      assert v < |s.workers| ==> WorkerOk(s, v);
    }
    forall u | u in n.calls ensures CallOk(n, u) {
      assert u in s.calls ==> CallOk(s, u);
    }
  }

  lemma SendKeeps(s: Pool, t: Task)
    requires Inv(s) && Enabled(s, SendTask(t))
    ensures Inv(DoSend(s, t))
  {
    var n := DoSend(s, t);
    assert CallOk(s, t);
    forall v | 0 <= v < |n.workers| ensures WorkerOk(n, v) {
      assert v < |s.workers| ==> WorkerOk(s, v);
    }
    forall u | u in n.calls ensures CallOk(n, u) {
      assert u in s.calls ==> CallOk(s, u);
    }
  }

  lemma ReceiveKeeps(s: Pool, w: nat)
    requires Inv(s) && Enabled(s, Receive(w))
    ensures Inv(DoReceive(s, w))
  {
    var n := DoReceive(s, w);
    assert WorkerOk(s, w);
    forall k | 0 <= k < |n.idle|
      ensures n.idle[k] < |n.workers| && n.workers[n.idle[k]].idx == k && Resting(n.workers[n.idle[k]])
    {
      assert s.idle[k] != w;
    }
    forall v | 0 <= v < |n.workers| ensures WorkerOk(n, v) {
      assert v < |s.workers| ==> WorkerOk(s, v);
    }
    forall u | u in n.calls ensures CallOk(n, u) {
      assert u in s.calls ==> CallOk(s, u);
    }
  }

  lemma FinishKeeps(s: Pool, w: nat)
    requires Inv(s) && Enabled(s, Finish(w))
    ensures Inv(DoFinish(s, w))
  {
    var n := DoFinish(s, w);
    assert WorkerOk(s, w);
    forall v | 0 <= v < |n.workers| ensures WorkerOk(n, v) {
      assert v < |s.workers| ==> WorkerOk(s, v);
    }
    forall u | u in n.calls ensures CallOk(n, u) {
      assert u in s.calls ==> CallOk(s, u);
    }
  }

  lemma TimeoutKeeps(s: Pool, w: nat)
    requires Inv(s) && Enabled(s, Timeout(w))
    ensures Inv(Apply(s, Timeout(w)))
  {
    var n := Apply(s, Timeout(w));
    forall v | 0 <= v < |n.workers| ensures WorkerOk(n, v) {
      assert v < |s.workers| ==> WorkerOk(s, v);
    }
    forall u | u in n.calls ensures CallOk(n, u) {
      assert u in s.calls ==> CallOk(s, u);
    }
  }

  lemma CheckIdleKeeps(s: Pool, w: nat)
    requires Inv(s) && Enabled(s, CheckIdle(w))
    ensures Inv(DoCheckIdle(s, w))
  {
    var n := DoCheckIdle(s, w);
    assert WorkerOk(s, w);
    forall v | 0 <= v < |n.workers| ensures WorkerOk(n, v) {
      assert v < |s.workers| ==> WorkerOk(s, v);
    }
    forall u | u in n.calls ensures CallOk(n, u) {
      assert u in s.calls ==> CallOk(s, u);
    }
  }

  lemma StepKeeps(s: Pool, e: Event)
    requires Inv(s) && Enabled(s, e)
    ensures Inv(Apply(s, e))
  {
    hide Inv, DoClaim, DoSpawn, DoSend, DoReceive, DoFinish, DoCheckIdle;
    match e
    case Claim(t) => ClaimKeeps(s, t);
    case Spawn(t) => SpawnKeeps(s, t);
    case SendTask(t) => SendKeeps(s, t);
    case Receive(w) => ReceiveKeeps(s, w);
    case Finish(w) => FinishKeeps(s, w);
    case Timeout(w) => TimeoutKeeps(s, w);
    case CheckIdle(w) => CheckIdleKeeps(s, w);
  }

  // ---- whole runs -------------------------------------------------------------------------------

  /** The states and steps of any interleaving, from the empty pool. */
  ghost predicate Run(ss: seq<Pool>, es: seq<Event>) {
    && |ss| == |es| + 1 && ss[0] == Pool([], [], map[], {}, {})
    && forall i :: 0 <= i < |es| ==> Enabled(ss[i], es[i]) && ss[i + 1] == Apply(ss[i], es[i])
  }

  lemma {:induction false} RunKeeps(ss: seq<Pool>, es: seq<Event>, i: nat)
    requires Run(ss, es) && i < |ss|
    ensures Inv(ss[i])
  {
    if i > 0 {
      RunKeeps(ss, es, i - 1);
      assert Enabled(ss[i - 1], es[i - 1]) && ss[i - 1 + 1] == Apply(ss[i - 1], es[i - 1]);
      StepKeeps(ss[i - 1], es[i - 1]);
    }
  }

  /** How often task t was taken from a channel and called. */
  ghost function Starts(ss: seq<Pool>, es: seq<Event>, t: Task): nat
    requires Run(ss, es)
  {
    if es == [] then 0
    else
      var m := |es| - 1;
      assert Run(ss[..m + 1], es[..m]);
      Starts(ss[..m + 1], es[..m], t)
      + if es[m].Receive? && assert Enabled(ss[m], es[m]); ss[m].workers[es[m].w].ch[0] == t then 1 else 0
  }

  /** A step other than this task's Receive leaves it as started or not as it was. */
  lemma StartedStep(s: Pool, e: Event, t: Task)
    requires Inv(s) && Enabled(s, e)
    ensures t in Apply(s, e).started <==> t in s.started || (e.Receive? && s.workers[e.w].ch[0] == t)
    ensures e.Receive? && s.workers[e.w].ch[0] == t ==> t !in s.started && t in s.calls
  {
    if e.Receive? {
      assert WorkerOk(s, e.w);
    }
  }

  /** In every run every task is called at most once, and exactly once when it counts as started. */
  lemma {:induction false} StartedOnce(ss: seq<Pool>, es: seq<Event>, t: Task)
    requires Run(ss, es)
    ensures Starts(ss, es, t) == if t in ss[|es|].started then 1 else 0
    ensures Starts(ss, es, t) == 1 ==> t in ss[|es|].calls && ss[|es|].calls[t].Sent?
  {
    hide Inv;
    if es != [] {
      var m := |es| - 1;
      var before, steps := ss[..m + 1], es[..m];
      assert Run(before, steps);
      StartedOnce(before, steps, t);
      RunKeeps(ss, es, m);
      assert Enabled(ss[m], es[m]) && ss[m + 1] == Apply(ss[m], es[m]);
      StartedStep(ss[m], es[m], t);
    }
    RunKeeps(ss, es, |es|);
    if t in ss[|es|].started { StartedWasSent(ss[|es|], t); }
  }

  lemma StartedWasSent(s: Pool, t: Task)
    requires Inv(s) && t in s.started
    ensures t in s.calls && s.calls[t].Sent?
  {
    assert CallOk(s, t);
  }

  // ---- what every reachable state promises ------------------------------------------------------

  /** idle[k].idx == k throughout, so the list has no repeats. */
  lemma IdleIndices(ss: seq<Pool>, es: seq<Event>, i: nat, k: nat)
    requires Run(ss, es) && i < |ss| && k < |ss[i].idle|
    ensures ss[i].idle[k] < |ss[i].workers| && ss[i].workers[ss[i].idle[k]].idx == k
    ensures forall j :: 0 <= j < |ss[i].idle| && ss[i].idle[j] == ss[i].idle[k] ==> j == k
  {
    RunKeeps(ss, es, i);
  }

  /** Go never blocks on its send and never indexes out of range; no more does a worker whose timer fired. */
  lemma NeverStuck(ss: seq<Pool>, es: seq<Event>, i: nat)
    requires Run(ss, es) && i < |ss|
    ensures forall t :: t !in ss[i].calls ==> Enabled(ss[i], Claim(t))
    ensures forall t :: t in ss[i].calls && ss[i].calls[t].Sending? ==> Enabled(ss[i], SendTask(t))
    ensures forall w :: 0 <= w < |ss[i].workers| && ss[i].workers[w].pc == TimedOut ==> Enabled(ss[i], CheckIdle(w))
    ensures forall w :: 0 <= w < |ss[i].workers| ==> |ss[i].workers[w].ch| <= 1
  {
    RunKeeps(ss, es, i);
    var s := ss[i];
    forall t | t in s.calls && s.calls[t].Sending? ensures Enabled(s, SendTask(t)) {
      assert CallOk(s, t);
    }
    forall w | 0 <= w < |s.workers|
      ensures |s.workers[w].ch| <= 1 && (s.workers[w].pc == TimedOut ==> Enabled(s, CheckIdle(w)))
    {
      assert WorkerOk(s, w);
    }
  }

  /** A worker that a caller has claimed, or that has a task in its channel, never exits: no step takes it down. */
  lemma ClaimedStays(ss: seq<Pool>, es: seq<Event>, i: nat, t: Task)
    requires Run(ss, es) && i < |es| && t in ss[i].calls
    requires ss[i].calls[t].Sending? || (ss[i].calls[t].Sent? && t !in ss[i].started)
    ensures ss[i].calls[t].w < |ss[i].workers| <= |ss[i + 1].workers|
    ensures ss[i + 1].workers[ss[i].calls[t].w].pc != Down
    ensures t in ss[i + 1].calls && ss[i + 1].calls[t].w == ss[i].calls[t].w
  {
    RunKeeps(ss, es, i);
    assert Enabled(ss[i], es[i]) && ss[i + 1] == Apply(ss[i], es[i]);
    assert CallOk(ss[i], t);
  }

  /** Everybody who can move without a new call or a timer has moved. */
  ghost predicate Quiet(s: Pool) {
    && (forall t :: !Enabled(s, Spawn(t)))
    && (forall t :: !Enabled(s, SendTask(t)))
    && (forall w :: !Enabled(s, Receive(w)))
    && (forall w :: !Enabled(s, Finish(w)))
    && (forall w :: !Enabled(s, CheckIdle(w)))
  }

  /** No task is dropped: once nothing is left to do, every task that was ever submitted has been run to its end. */
  lemma NothingDropped(ss: seq<Pool>, es: seq<Event>)
    requires Run(ss, es) && Quiet(ss[|es|])
    ensures ss[|es|].done == ss[|es|].calls.Keys
    ensures forall t :: t in ss[|es|].calls ==> Starts(ss, es, t) == 1
  {
    RunKeeps(ss, es, |es|);
    var s := ss[|es|];
    forall t | t in s.calls ensures t in s.done {
      QuietDone(s, t);
    }
    forall t | t in s.calls ensures Starts(ss, es, t) == 1 {
      StartedOnce(ss, es, t);
    }
  }

  lemma QuietDone(s: Pool, t: Task)
    requires Inv(s) && Quiet(s) && t in s.calls
    ensures t in s.done
  {
    assert CallOk(s, t);
    assert !Enabled(s, Spawn(t)) && !Enabled(s, SendTask(t));
    if s.calls[t].Sent? {
      var w := s.calls[t].w;
      assert WorkerOk(s, w);
      assert !Enabled(s, Receive(w)) && !Enabled(s, Finish(w)) && !Enabled(s, CheckIdle(w));
    }
  }

  /** What is still ahead of task t. */
  function Left(s: Pool, t: Task): nat
  {
    if t in s.done then 0
    else if t in s.started then 1
    else if t in s.calls && s.calls[t].Sent? then 2
    else if t in s.calls && s.calls[t].Sending? then 3
    else 4
  }

  /** A task only ever moves forward, and a worker's or caller's step for it moves it by exactly one. */
  lemma TasksAdvance(ss: seq<Pool>, es: seq<Event>, i: nat, t: Task)
    requires Run(ss, es) && i < |es|
    ensures Left(ss[i + 1], t) <= Left(ss[i], t)
    ensures es[i] == Spawn(t) || es[i] == SendTask(t) ==> Left(ss[i + 1], t) + 1 == Left(ss[i], t)
    ensures es[i].Receive? && ss[i].workers[es[i].w].ch[0] == t ==> Left(ss[i + 1], t) == 1 && Left(ss[i], t) == 2
    ensures es[i].Finish? && ss[i].workers[es[i].w].pc.task == t ==> Left(ss[i + 1], t) == 0 && Left(ss[i], t) == 1
  {
    RunKeeps(ss, es, i);
    var s, e := ss[i], es[i];
    assert Enabled(s, e) && ss[i + 1] == Apply(s, e);
    if t in s.calls { assert CallOk(s, t); }
    if e.Receive? || e.Finish? { assert WorkerOk(s, e.w); }
  }

  // ---- every schedule comes to an end -------------------------------------------------------------

  ghost function Spawnings(s: Pool): set<Task> { set t | t in s.calls && s.calls[t] == Spawning }

  ghost function Unsent(s: Pool): set<Task> { set t | t in s.calls && !s.calls[t].Sent? }

  ghost function Woken(s: Pool): set<nat> { set w: nat | w < |s.workers| && s.workers[w].pc == TimedOut }

  /** Steps still to be taken by callers and workers, if no call and no timer comes in between. */
  ghost function Work(s: Pool): nat {
    |Spawnings(s)| + |Unsent(s)| + |s.calls.Keys - s.started| + |s.calls.Keys - s.done| + |Woken(s)|
  }

  lemma Without<T>(a: set<T>, b: set<T>, x: T)
    requires x in a && b == a - {x}
    ensures |b| == |a| - 1
  {
  }

  /** A step of a caller or worker does exactly one of them. */
  lemma StepLowers(s: Pool, e: Event)
    requires Inv(s) && Enabled(s, e) && !e.Claim? && !e.Timeout?
    ensures Work(Apply(s, e)) == Work(s) - 1
  {
    match e
    case Spawn(t) =>
      SpawnLowers(s, t);
    case SendTask(t) =>
      SendLowers(s, t);
    case Receive(w) =>
      StartLowers(s, w);
    case Finish(w) =>
      FinishLowers(s, w);
    case CheckIdle(w) =>
      CheckLowers(s, w);
  }

  lemma SpawnLowers(s: Pool, t: Task)
    requires Enabled(s, Spawn(t))
    ensures Work(DoSpawn(s, t)) == Work(s) - 1
  {
    var n := DoSpawn(s, t);
    Without(Spawnings(s), Spawnings(n), t);
    assert Unsent(n) == Unsent(s) && Woken(n) == Woken(s) && n.calls.Keys == s.calls.Keys;
  }

  lemma SendLowers(s: Pool, t: Task)
    requires Enabled(s, SendTask(t))
    ensures Work(DoSend(s, t)) == Work(s) - 1
  {
    var n := DoSend(s, t);
    Without(Unsent(s), Unsent(n), t);
    assert Spawnings(n) == Spawnings(s) && Woken(n) == Woken(s) && n.calls.Keys == s.calls.Keys;
  }

  lemma StartLowers(s: Pool, w: nat)
    requires Inv(s) && Enabled(s, Receive(w))
    ensures Work(DoReceive(s, w)) == Work(s) - 1
  {
    var n, t := DoReceive(s, w), s.workers[w].ch[0];
    assert WorkerOk(s, w);
    hide Inv;
    Without(s.calls.Keys - s.started, n.calls.Keys - n.started, t);
    assert Spawnings(n) == Spawnings(s) && Unsent(n) == Unsent(s) && Woken(n) == Woken(s);
  }

  lemma FinishLowers(s: Pool, w: nat)
    requires Inv(s) && Enabled(s, Finish(w))
    ensures Work(DoFinish(s, w)) == Work(s) - 1
  {
    var n, t := DoFinish(s, w), s.workers[w].pc.task;
    assert WorkerOk(s, w);
    hide Inv;
    Without(s.calls.Keys - s.done, n.calls.Keys - n.done, t);
    assert Spawnings(n) == Spawnings(s) && Unsent(n) == Unsent(s) && Woken(n) == Woken(s);
  }

  lemma CheckLowers(s: Pool, w: nat)
    requires Enabled(s, CheckIdle(w))
    ensures Work(DoCheckIdle(s, w)) == Work(s) - 1
  {
    var n := DoCheckIdle(s, w);
    CheckWakes(s, w);
    assert Spawnings(n) == Spawnings(s) && Unsent(n) == Unsent(s);
    hide Enabled, Woken, Spawnings, Unsent;
    Without(Woken(s), Woken(n), w);
  }

  lemma CheckWakes(s: Pool, w: nat)
    requires Enabled(s, CheckIdle(w))
    ensures w in Woken(s) && Woken(DoCheckIdle(s, w)) == Woken(s) - {w}
  {
  }

  /** Nothing can move exactly when nothing is left to do. */
  lemma QuietIsDone(s: Pool)
    requires Inv(s)
    ensures Quiet(s) <==> Work(s) == 0
  {
    if Quiet(s) {
      forall t | t in s.calls ensures t in s.done { QuietDone(s, t); }
      QuietAll(s);
    } else if Work(s) == 0 {
      NothingToDo(s);
    }
  }

  lemma QuietAll(s: Pool)
    requires Inv(s) && Quiet(s) && forall t :: t in s.calls ==> t in s.done
    ensures Work(s) == 0
  {
    assert s.calls.Keys - s.done == {} && s.calls.Keys - s.started == {};
    forall t | t in s.calls ensures s.calls[t].Sent? { assert CallOk(s, t); }
    assert Spawnings(s) == {} && Unsent(s) == {};
    forall w: nat | w < |s.workers| ensures s.workers[w].pc != TimedOut {
      assert WorkerOk(s, w) && !Enabled(s, CheckIdle(w));
    }
    assert Woken(s) == {};
  }

  lemma NothingToDo(s: Pool)
    requires Inv(s) && Work(s) == 0
    ensures Quiet(s)
  {
    assert Spawnings(s) == {} && Unsent(s) == {} && Woken(s) == {};
    assert s.calls.Keys - s.started == {} && s.calls.Keys - s.done == {};
    forall t ensures !Enabled(s, Spawn(t)) && !Enabled(s, SendTask(t)) {
      assert t !in Spawnings(s) && t !in Unsent(s);
    }
    forall w: nat ensures !Enabled(s, Receive(w)) && !Enabled(s, Finish(w)) && !Enabled(s, CheckIdle(w)) {
      assert w < |s.workers| ==> WorkerOk(s, w);
      assert w !in Woken(s);
    }
  }

  /**
   * From any point of any run, callers and workers have a fixed number of steps left: whatever their
   * order, each step is one of them, and after the last one every task submitted so far has been
   * called once and has ended. Until then some step is possible.
   */
  lemma {:induction false} ScheduleEnds(ss: seq<Pool>, es: seq<Event>, i: nat)
    requires Run(ss, es) && i <= |es| && forall k :: i <= k < |es| ==> !es[k].Claim? && !es[k].Timeout?
    ensures |es| - i + Work(ss[|es|]) == Work(ss[i])
    ensures |es| - i == Work(ss[i]) <==> Quiet(ss[|es|])
    ensures |es| - i == Work(ss[i]) ==> ss[|es|].done == ss[|es|].calls.Keys == ss[i].calls.Keys
    ensures |es| - i == Work(ss[i]) ==> forall t :: t in ss[i].calls ==> Starts(ss, es, t) == 1
  {
    hide Inv, Enabled, Apply, Work, Quiet;
    WorkFalls(ss, es, i, |es|);
    RunKeeps(ss, es, |es|);
    QuietIsDone(ss[|es|]);
    if |es| - i == Work(ss[i]) { NothingDropped(ss, es); }
  }

  lemma {:induction false} WorkFalls(ss: seq<Pool>, es: seq<Event>, i: nat, j: nat)
    requires Run(ss, es) && i <= j <= |es| && forall k :: i <= k < |es| ==> !es[k].Claim? && !es[k].Timeout?
    ensures j - i + Work(ss[j]) == Work(ss[i]) && ss[j].calls.Keys == ss[i].calls.Keys
    decreases j
  {
    hide Inv, Work;
    if j > i {
      WorkFalls(ss, es, i, j - 1);
      RunKeeps(ss, es, j - 1);
      assert Enabled(ss[j - 1], es[j - 1]) && ss[j - 1 + 1] == Apply(ss[j - 1], es[j - 1]);
      StepLowers(ss[j - 1], es[j - 1]);
      SameCalls(ss[j - 1], es[j - 1]);
    }
  }

  lemma SameCalls(s: Pool, e: Event)
    requires Enabled(s, e) && !e.Claim?
    ensures Apply(s, e).calls.Keys == s.calls.Keys
  {
  }

  /** A worker whose timer fired exits exactly if it is idle, and then only it leaves the idle list. */
  lemma IdleWorkerExits(ss: seq<Pool>, es: seq<Event>, i: nat, w: nat)
    requires Run(ss, es) && i < |es| && es[i] == CheckIdle(w)
    ensures w < |ss[i].workers| == |ss[i + 1].workers|
    ensures ss[i + 1].workers[w].pc == Down <==> w in ss[i].idle
    ensures ss[i + 1].workers[w].pc == Down || ss[i + 1].workers[w].pc == Select
    ensures forall v :: v in ss[i + 1].idle <==> v in ss[i].idle && v != w
    ensures forall v :: 0 <= v < |ss[i].workers| && v != w ==> ss[i + 1].workers[v].pc == ss[i].workers[v].pc
  {
    RunKeeps(ss, es, i);
    RunKeeps(ss, es, i + 1);
    var s, n := ss[i], ss[i + 1];
    assert Enabled(s, es[i]) && n == Apply(s, es[i]);
    assert WorkerOk(s, w);
    ExitsFrom(s, w);
  }

  lemma ExitsFrom(s: Pool, w: nat)
    requires Inv(s) && Enabled(s, CheckIdle(w))
    ensures var n := DoCheckIdle(s, w); forall v :: v in n.idle <==> v in s.idle && v != w
  {
    var n, x := DoCheckIdle(s, w), s.workers[w].idx;
    assert WorkerOk(s, w);
    if x >= 0 {
      var last := s.idle[|s.idle| - 1];
      forall v ensures v in n.idle <==> v in s.idle && v != w {
        if v in s.idle && v != w {
          var k :| 0 <= k < |s.idle| && s.idle[k] == v;
          assert n.idle[if k == |s.idle| - 1 then x else k] == v;
        }
        if v in n.idle {
          var k :| 0 <= k < |n.idle| && n.idle[k] == v;
          assert s.idle[if k == x then |s.idle| - 1 else k] == v;
        }
      }
    }
  }

  // ---- workers are reused -------------------------------------------------------------------------

  /** Workers that have not exited. */
  ghost function Live(s: Pool): set<nat> { set w: nat | w < |s.workers| && s.workers[w].pc != Down }

  /** Tasks submitted and not ended. */
  ghost function Underway(s: Pool): set<Task> { s.calls.Keys - s.done }

  /** The task each worker was last given. */
  ghost function LastTasks(s: Pool, ws: set<nat>): map<nat, Task>
    requires forall w :: w in ws ==> w < |s.workers|
  {
    map w | w in ws :: s.workers[w].last
  }

  lemma {:induction false} InjectiveSize(m: map<nat, Task>)
    requires forall a, b :: a in m && b in m && m[a] == m[b] ==> a == b
    ensures |m.Values| == |m.Keys|
    decreases |m.Keys|
  {
    if m.Keys == {} {
      assert m.Values == {};
    } else {
      var a :| a in m;
      var r := m - {a};
      assert r.Keys == m.Keys - {a};
      assert forall b :: b in r ==> r[b] == m[b];
      InjectiveSize(r);
      forall x ensures x in r.Values <==> x in m.Values && x != m[a] {
        if x in m.Values && x != m[a] {
          var b :| b in m && m[b] == x;
          assert b in r && r[b] == x;
        }
        if x in r.Values {
          var b :| b in r && r[b] == x;
          assert m[b] == x;
        }
      }
      assert r.Values == m.Values - {m[a]} && m[a] in m.Values;
    }
  }

  /** With no idle worker, every worker has a task of its own and every task a worker, or a call about to make one. */
  lemma AllBusy(s: Pool)
    requires Inv(s) && s.idle == []
    ensures |Live(s)| + |Spawnings(s)| == |Underway(s)|
  {
    SpawningsUnderway(s);
    hide Inv, Live, Underway, Spawnings, LastTasks;
    LiveOnes(s);
    var m := LastTasks(s, Live(s));
    TasksOfLive(s, m);
    InjectiveSize(m);
    assert Underway(s) == m.Values + Spawnings(s) && m.Values !! Spawnings(s);
  }

  lemma LiveOnes(s: Pool)
    ensures forall w :: w in Live(s) ==> w < |s.workers|
  {
  }

  lemma TasksOfLive(s: Pool, m: map<nat, Task>)
    requires Inv(s) && s.idle == [] && (forall w :: w in Live(s) ==> w < |s.workers|) && m == LastTasks(s, Live(s))
    ensures m.Keys == Live(s) && (forall a, b :: a in m && b in m && m[a] == m[b] ==> a == b)
    ensures m.Values == Underway(s) - Spawnings(s)
  {
    forall a, b | a in m && b in m && m[a] == m[b] ensures a == b {
      LiveIsBusy(s, a);
      LiveIsBusy(s, b);
    }
    hide Inv;
    forall t | t in m.Values ensures t in Underway(s) && t !in Spawnings(s) {
      var w :| w in m && m[w] == t;
      LiveIsBusy(s, w);
    }
    hide BusyWith;
    forall t | t in Underway(s) && t !in Spawnings(s) ensures t in m.Values {
      var w := UnderwayAt(s, t);
      assert w in m && m[w] == t;
    }
  }

  lemma LiveIsBusy(s: Pool, w: nat)
    requires Inv(s) && s.idle == [] && w in Live(s)
    ensures BusyWith(s, w)
  {
    assert WorkerOk(s, w);
    var t := s.workers[w].last;
    assert t in s.calls && CallOk(s, t);
  }

  lemma UnderwayAt(s: Pool, t: Task) returns (w: nat)
    requires Inv(s) && s.idle == [] && t in Underway(s) && t !in Spawnings(s)
    ensures w in Live(s) && s.workers[w].last == t
  {
    assert CallOk(s, t);
    w := s.calls[t].w;
    assert WorkerOk(s, w);
  }

  lemma SpawningsUnderway(s: Pool)
    requires Inv(s)
    ensures Spawnings(s) <= Underway(s)
  {
    forall t | t in Spawnings(s) ensures t in Underway(s) { assert CallOk(s, t); }
  }

  /** The task that w was last given was sent or is about to be sent to it, and has not ended. */
  ghost predicate BusyWith(s: Pool, w: nat) {
    w < |s.workers| && var t := s.workers[w].last;
      t in s.calls && (s.calls[t] == Sending(w) || s.calls[t] == Sent(w)) && t !in s.done
  }

  /** Workers and those about to be made become more only by a call that finds all of them busy. */
  lemma CapacityStep(s: Pool, e: Event)
    requires Inv(s) && Enabled(s, e)
    ensures var n := Apply(s, e);
      || |Live(n)| + |Spawnings(n)| <= |Live(s)| + |Spawnings(s)|
      || (e.Claim? && s.idle == [] && |Live(n)| + |Spawnings(n)| == |Underway(n)|)
  {
    var n := Apply(s, e);
    if e.Claim? && s.idle == [] {
      ClaimKeeps(s, e.t);
      hide Enabled, Inv;
      AllBusy(n);
    } else {
      hide Inv;
      CapacityFalls(s, e);
    }
  }

  lemma CapacityFalls(s: Pool, e: Event)
    requires Enabled(s, e) && (e.Claim? ==> s.idle != [])
    ensures var n := Apply(s, e); |Live(n)| + |Spawnings(n)| <= |Live(s)| + |Spawnings(s)|
  {
    if e.Spawn? {
      SpawnCounts(s, e.t);
    } else {
      SpawningsSame(s, e);
      LiveFalls(s, e);
      hide Live, Spawnings, Enabled, Apply;
      Smaller(Live(Apply(s, e)), Live(s));
    }
  }

  lemma {:induction false} Smaller<T>(a: set<T>, b: set<T>)
    requires a <= b
    ensures |a| <= |b|
    decreases a
  {
    if a != {} {
      var x :| x in a;
      Smaller(a - {x}, b - {x});
    }
  }

  lemma SpawnLives(s: Pool, t: Task)
    ensures |s.workers| in Live(DoSpawn(s, t)) && Live(s) == Live(DoSpawn(s, t)) - {|s.workers|}
  {
  }

  lemma SpawnLeaves(s: Pool, t: Task)
    requires Enabled(s, Spawn(t))
    ensures t in Spawnings(s) && Spawnings(DoSpawn(s, t)) == Spawnings(s) - {t}
  {
  }

  lemma SpawnCounts(s: Pool, t: Task)
    requires Enabled(s, Spawn(t))
    ensures var n := DoSpawn(s, t); |Live(n)| + |Spawnings(n)| == |Live(s)| + |Spawnings(s)|
  {
    SpawnLives(s, t);
    SpawnLeaves(s, t);
    hide Live, Spawnings, DoSpawn, Enabled;
    var n := DoSpawn(s, t);
    Without(Spawnings(s), Spawnings(n), t);
    Without(Live(n), Live(s), |s.workers|);
  }

  lemma SpawningsSame(s: Pool, e: Event)
    requires Enabled(s, e) && !e.Spawn? && (e.Claim? ==> s.idle != [])
    ensures Spawnings(Apply(s, e)) == Spawnings(s)
  {
  }

  lemma LiveFalls(s: Pool, e: Event)
    requires Enabled(s, e) && !e.Spawn?
    ensures Live(Apply(s, e)) <= Live(s)
  {
  }

  /** A call makes a worker exactly if it found none idle, and otherwise takes the one that became idle last. */
  lemma IdleReused(ss: seq<Pool>, es: seq<Event>, i: nat, t: Task)
    requires Run(ss, es) && i < |es|
    ensures |ss[i + 1].workers| > |ss[i].workers| <==> es[i].Spawn?
    ensures es[i] == Spawn(t) ==> exists k :: 0 <= k < i && es[k] == Claim(t) && ss[k].idle == []
    ensures es[i] == Claim(t) && ss[i].idle != [] ==>
      ss[i + 1].calls[t] == Sending(ss[i].idle[|ss[i].idle| - 1]) && |ss[i + 1].idle| == |ss[i].idle| - 1
  {
    assert Enabled(ss[i], es[i]) && ss[i + 1] == Apply(ss[i], es[i]);
    if es[i] == Spawn(t) {
      SpawningWasClaimed(ss, es, i, t);
    }
  }

  lemma {:induction false} SpawningWasClaimed(ss: seq<Pool>, es: seq<Event>, i: nat, t: Task)
    requires Run(ss, es) && i < |ss| && t in ss[i].calls && ss[i].calls[t] == Spawning
    ensures exists k :: 0 <= k < i && es[k] == Claim(t) && ss[k].idle == []
  {
    if i > 0 {
      assert Enabled(ss[i - 1], es[i - 1]) && ss[i - 1 + 1] == Apply(ss[i - 1], es[i - 1]);
      if es[i - 1] != Claim(t) {
        SpawningWasClaimed(ss, es, i - 1, t);
      }
    }
  }

  /** At no time are there more workers than there were tasks under way at once. */
  lemma {:induction false} WorkersBounded(ss: seq<Pool>, es: seq<Event>, i: nat) returns (j: nat)
    requires Run(ss, es) && i < |ss|
    ensures j <= i && |Live(ss[i])| + |Spawnings(ss[i])| <= |Underway(ss[j])|
  {
    hide Inv, Live, Spawnings, Underway, Enabled, Apply;
    if i == 0 {
      j := 0;
      EmptyPool(ss[0]);
    } else {
      j := WorkersBounded(ss, es, i - 1);
      RunKeeps(ss, es, i - 1);
      CapacityInRun(ss, es, i - 1);
      if |Live(ss[i])| + |Spawnings(ss[i])| > |Live(ss[i - 1])| + |Spawnings(ss[i - 1])| {
        j := i;
      }
    }
  }

  lemma EmptyPool(s: Pool)
    requires s == Pool([], [], map[], {}, {})
    ensures |Live(s)| + |Spawnings(s)| == 0
  {
    assert Live(s) == {} && Spawnings(s) == {};
  }

  lemma CapacityInRun(ss: seq<Pool>, es: seq<Event>, i: nat)
    requires Run(ss, es) && i < |es| && Inv(ss[i])
    ensures var n := ss[i + 1];
      || |Live(n)| + |Spawnings(n)| <= |Live(ss[i])| + |Spawnings(ss[i])|
      || |Live(n)| + |Spawnings(n)| == |Underway(n)|
  {
    hide Inv, Live, Spawnings, Underway, Apply;
    assert Enabled(ss[i], es[i]) && ss[i + 1] == Apply(ss[i], es[i]);
    CapacityStep(ss[i], es[i]);
  }
}
