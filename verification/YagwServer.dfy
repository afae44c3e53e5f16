/** What every run of the gateway's workers and event loop keeps: exclusive use and no forgotten event. */
module YagwServer {
  import opened Collections
  import opened YagwWorkers

  /** Any number of workers and any channel sizes; no connection yet. */
  ghost predicate Init(s: Server) {
    && s.ds == map[] && s.gq == [] && s.loop == Wait
    && forall k :: 0 <= k < |s.ws| ==> s.ws[k] == Worker(Top, [], None, None, [])
  }

  ghost predicate Run(ss: seq<Server>, es: seq<Event>) {
    && |ss| == |es| + 1 && Init(ss[0])
    && forall i :: 0 <= i < |es| ==> Enabled(ss[i], es[i]) && ss[i + 1] == Apply(ss[i], es[i])
  }

  // ---- exclusive use ----------------------------------------------------------------------------

  function Occurrences(q: seq<Pd>, p: Pd): nat {
    if q == [] then 0 else Occurrences(q[..|q| - 1], p) + if q[|q| - 1] == p then 1 else 0
  }

  /** How many workers use p plus how often it stands in local queues. */
  function Uses(ws: seq<Worker>, p: Pd): nat {
    if ws == [] then 0
    else
      var x := ws[|ws| - 1];
      Uses(ws[..|ws| - 1], p) + (if Used(x.pc) == Some(p) then 1 else 0) + Occurrences(x.q, p)
  }

  lemma {:induction false} OccursOnce(q: seq<Pd>, p: Pd)
    requires forall i, j :: 0 <= i < j < |q| ==> q[i] != q[j]
    ensures Occurrences(q, p) == if p in q then 1 else 0
  {
    if q != [] {
      OccursOnce(q[..|q| - 1], p);
      assert q == q[..|q| - 1] + [q[|q| - 1]];
    }
  }

  /** One worker's share of the count, by the place on record. */
  lemma ShareOf(s: Server, k: nat, p: Pd)
    requires Inv(s) && k < |s.ws| && p in s.ds
    ensures Used(s.ws[k].pc) == Some(p) <==> s.ds[p].at == With(k)
    ensures Occurrences(s.ws[k].q, p) == if s.ds[p].at == Queued(k) then 1 else 0
  {
    assert DescOk(s.ws, p, s.ds[p]) && PcOk(s.ds, k, s.ws[k].pc) && QueueOk(s.ds, k, s.ws[k]);
    var q := s.ws[k].q;
    OccursOnce(q, p);
    if p in q {
      var i :| 0 <= i < |q| && q[i] == p;
      assert LinkedAt(s.ds, k, q[i], After(q, i));
    }
  }

  /** The worker on record for a descriptor in use. */
  function Holder(d: Desc): Option<nat> {
    match d.at case With(k) => Some(k) case Queued(k) => Some(k) case _ => None
  }

  lemma {:induction false} UsesUpTo(s: Server, k: nat, p: Pd)
    requires Inv(s) && k <= |s.ws| && p in s.ds
    ensures Uses(s.ws[..k], p) == if Holder(s.ds[p]).Some? && Holder(s.ds[p]).value < k then 1 else 0
  {
    hide Inv, Used, Occurrences;
    if k > 0 {
      UsesUpTo(s, k - 1, p);
      ShareOf(s, k - 1, p);
      assert s.ws[..k][..k - 1] == s.ws[..k - 1];
    }
  }

  lemma InitInv(s: Server)
    requires Init(s)
    ensures Inv(s)
  {
  }

  lemma {:induction false} RunKeeps(ss: seq<Server>, es: seq<Event>, i: nat)
    requires Run(ss, es) && i < |ss|
    ensures Inv(ss[i])
  {
    hide Inv;
    if i == 0 {
      InitInv(ss[0]);
    } else {
      RunKeeps(ss, es, i - 1);
      assert Enabled(ss[i - 1], es[i - 1]) && ss[i - 1 + 1] == Apply(ss[i - 1], es[i - 1]);
      StepKeeps(ss[i - 1], es[i - 1]);
    }
  }

  /**
   * A descriptor is used by one worker or stands in one local queue, once in total, exactly while
   * its own flag is set and it was not dropped as bad.
   */
  lemma ExclusiveUse(ss: seq<Server>, es: seq<Event>, i: nat, p: Pd)
    requires Run(ss, es) && i < |ss| && p in ss[i].ds
    ensures Uses(ss[i].ws, p) <= 1
    ensures Uses(ss[i].ws, p) == 1 <==> ss[i].ds[p].own && ss[i].ds[p].at != Abandoned
    ensures ss[i].ds[p].at == Abandoned ==> ss[i].ds[p].bad
  {
    RunKeeps(ss, es, i);
    var s := ss[i];
    UsesUpTo(s, |s.ws|, p);
    assert s.ws[..|s.ws|] == s.ws;
    assert DescOk(s.ws, p, s.ds[p]);
  }

  /** on_poll never runs twice at once on one connection. */
  lemma PollsAlone(ss: seq<Server>, es: seq<Event>, i: nat, j: nat, k: nat)
    requires Run(ss, es) && i < |ss| && j < |ss[i].ws| && k < |ss[i].ws|
    requires ss[i].ws[j].pc.Polling? && ss[i].ws[k].pc == ss[i].ws[j].pc
    ensures j == k && ss[i].ws[j].pc.p in ss[i].ds && ss[i].ds[ss[i].ws[j].pc.p].own
  {
    RunKeeps(ss, es, i);
    var s, p := ss[i], ss[i].ws[j].pc.p;
    assert PcOk(s.ds, j, s.ws[j].pc) && PcOk(s.ds, k, s.ws[k].pc) && DescOk(s.ws, p, s.ds[p]);
  }

  /** The descriptors met by following local_next from p, at most n of them. */
  function Chain(ds: map<Pd, Desc>, p: Option<Pd>, n: nat): seq<Pd>
    decreases n
  {
    if n == 0 || p == None || p.value !in ds then [] else [p.value] + Chain(ds, ds[p.value].next, n - 1)
  }

  function First(q: seq<Pd>): Option<Pd> {
    if q == [] then None else Some(q[0])
  }

  lemma {:induction false} ChainOf(ds: map<Pd, Desc>, q: seq<Pd>, n: nat)
    requires forall i :: 0 <= i < |q| ==> q[i] in ds && ds[q[i]].next == After(q, i)
    requires n >= |q|
    ensures Chain(ds, First(q), n) == q
  {
    if q != [] {
      var t := q[1..];
      forall i | 0 <= i < |t| ensures t[i] in ds && ds[t[i]].next == After(t, i) {
        assert t[i] == q[i + 1];
      }
      ChainOf(ds, t, n - 1);
      assert q[0] in ds && ds[q[0]].next == After(q, 0) == First(t);
    }
  }

  /** The queue as linked in memory is the list of its elements. */
  lemma LinksAreQueue(s: Server, k: nat, n: nat)
    requires Inv(s) && k < |s.ws| && n >= |s.ws[k].q|
    ensures Chain(s.ds, s.ws[k].q1, n) == s.ws[k].q
    ensures s.ws[k].q0 == if s.ws[k].q == [] then None else Some(s.ws[k].q[|s.ws[k].q| - 1])
  {
    assert QueueOk(s.ds, k, s.ws[k]);
    hide Inv;
    var q := s.ws[k].q;
    forall i | 0 <= i < |q| ensures q[i] in s.ds && s.ds[q[i]].next == After(q, i) {
      assert LinkedAt(s.ds, k, q[i], After(q, i));
    }
    ChainOf(s.ds, q, n);
  }

  /** What event e does to the queue of worker k: append at the back, take from the front, or nothing. */
  predicate FifoStep(x: Worker, y: Worker, e: Event, k: nat) {
    if e == Link(k) then x.pc.Append? && y.q == x.q + [x.pc.p]
    else if e == TakeLocal(k) && x.q != [] then y.pc.Held? && x.q == [y.pc.p] + y.q
    else y.q == x.q
  }

  lemma QueueSteps(s: Server, e: Event, k: nat)
    requires Inv(s) && Enabled(s, e) && k < |s.ws|
    ensures |Apply(s, e).ws| == |s.ws| && FifoStep(s.ws[k], Apply(s, e).ws[k], e, k)
  {
    hide *;
    if Passive(s, e) {
      PassiveQueues(s, e, k);
    } else if e.TakeLocal? {
      TakeSteps(s, e, k);
    } else {
      OtherSteps(s, e, k);
    }
  }

  lemma TakeSteps(s: Server, e: Event, k: nat)
    requires Inv(s) && Enabled(s, e) && k < |s.ws| && e.TakeLocal? && !Passive(s, e)
    ensures |Apply(s, e).ws| == |s.ws| && FifoStep(s.ws[k], Apply(s, e).ws[k], e, k)
  {
    assert e.k < |s.ws| && s.ws[e.k].q1.Some? && Apply(s, e) == DoTakeLocal(s, e.k);
    TakenQueue(s, e.k);
    hide Inv, Enabled, Apply, Passive;
  }

  lemma OtherSteps(s: Server, e: Event, k: nat)
    requires Enabled(s, e) && k < |s.ws| && !e.TakeLocal? && !Passive(s, e)
    ensures |Apply(s, e).ws| == |s.ws| && FifoStep(s.ws[k], Apply(s, e).ws[k], e, k)
  {
  }

  lemma PassiveQueues(s: Server, e: Event, k: nat)
    requires Inv(s) && Enabled(s, e) && k < |s.ws| && Passive(s, e)
    ensures |Apply(s, e).ws| == |s.ws| && FifoStep(s.ws[k], Apply(s, e).ws[k], e, k)
  {
    hide *;
    PassiveHolds(s, e);
    SameQueues(s, Apply(s, e), k);
    PassiveTakes(s, e, k);
  }

  lemma SameQueues(s: Server, n: Server, k: nat)
    requires HoldsSame(s, n) && k < |s.ws|
    ensures |n.ws| == |s.ws| && n.ws[k].q == s.ws[k].q
  {
  }

  lemma PassiveTakes(s: Server, e: Event, k: nat)
    requires Inv(s) && Enabled(s, e) && Passive(s, e) && k < |s.ws|
    ensures forall y: Worker :: y.q == s.ws[k].q ==> FifoStep(s.ws[k], y, e, k)
  {
    hide DescsOk, PcsOk, ChansOk;
    assert QueueOk(s.ds, k, s.ws[k]);
  }

  /**
   * Local queues are well-formed FIFO lists: the links from localq1 run through the elements in the
   * order they were appended, end at localq0, and every step appends at the back, takes from the
   * front, or leaves the list alone.
   */
  lemma LocalFifo(ss: seq<Server>, es: seq<Event>, i: nat, k: nat, n: nat)
    requires Run(ss, es) && i < |es| && k < |ss[i].ws| && n >= |ss[i].ws[k].q|
    ensures |ss[i + 1].ws| == |ss[i].ws|
    ensures var x, y := ss[i].ws[k], ss[i + 1].ws[k];
      && Chain(ss[i].ds, x.q1, n) == x.q
      && x.q0 == (if x.q == [] then None else Some(x.q[|x.q| - 1]))
      && FifoStep(x, y, es[i], k)
  {
    hide Inv, Enabled, Apply, Chain, FifoStep;
    RunKeeps(ss, es, i);
    assert Enabled(ss[i], es[i]) && ss[i + 1] == Apply(ss[i], es[i]);
    LinksAreQueue(ss[i], k, n);
    QueueSteps(ss[i], es[i], k);
  }

  /** What event e does to the channel of worker k: the loop sends to it by file descriptor while it has room. */
  predicate ChannelStep(s: Server, n: Server, e: Event, k: nat)
    requires k < |s.ws| == |n.ws| && (e == LoopStep && s.loop.Enqueue? ==> s.loop.p in s.ds)
  {
    var a, b := s.ws[k].wq, n.ws[k].wq;
    if e == Receive(k) then n.ws[k].pc.Got? && a == [n.ws[k].pc.p] + b
    else if e == LoopStep && s.loop.Enqueue? && s.ds[s.loop.p].fd % |s.ws| == k && |a| < s.wcap then b == a + [s.loop.p]
    else b == a
  }

  /** And to the global one, which takes what does not fit there and what connections put back. */
  predicate GlobalStep(s: Server, n: Server, e: Event)
    requires |s.ws| == |n.ws| > 0 && (e == LoopStep && s.loop.Enqueue? ==> s.loop.p in s.ds)
  {
    if e.ReceiveGlobal? then e.k < |n.ws| && n.ws[e.k].pc.Got? && s.gq == [n.ws[e.k].pc.p] + n.gq
    else if e.Requeue? then n.gq == s.gq + [e.p]
    else if e == LoopStep && s.loop.Enqueue? && |s.ws[s.ds[s.loop.p].fd % |s.ws|].wq| >= s.wcap then
      n.gq == s.gq + [s.loop.p]
    else n.gq == s.gq
  }

  lemma ChannelSteps(s: Server, e: Event, k: nat)
    requires Enabled(s, e) && k < |s.ws|
    ensures |Apply(s, e).ws| == |s.ws| && ChannelStep(s, Apply(s, e), e, k) && GlobalStep(s, Apply(s, e), e)
  {
    WorkerChannels(s, e, k);
    GlobalChannel(s, e);
    hide *;
  }

  lemma WorkerChannels(s: Server, e: Event, k: nat)
    requires Enabled(s, e) && k < |s.ws|
    ensures |Apply(s, e).ws| == |s.ws| && ChannelStep(s, Apply(s, e), e, k)
  {
  }

  lemma GlobalChannel(s: Server, e: Event)
    requires Enabled(s, e) && |s.ws| > 0
    ensures |Apply(s, e).ws| == |s.ws| && GlobalStep(s, Apply(s, e), e)
  {
  }

  /** Channels, too, are FIFO: what is received first was sent first, and nothing in them is lost or doubled. */
  lemma ChannelFifo(ss: seq<Server>, es: seq<Event>, i: nat, k: nat)
    requires Run(ss, es) && i < |es| && k < |ss[i].ws|
    ensures |ss[i + 1].ws| == |ss[i].ws|
    ensures es[i] == LoopStep && ss[i].loop.Enqueue? ==> ss[i].loop.p in ss[i].ds
    ensures ChannelStep(ss[i], ss[i + 1], es[i], k) && GlobalStep(ss[i], ss[i + 1], es[i])
  {
    assert Enabled(ss[i], es[i]) && ss[i + 1] == Apply(ss[i], es[i]);
    hide Apply, ChannelStep, GlobalStep;
    ChannelSteps(ss[i], es[i], k);
  }

  // ---- no event is forgotten ----------------------------------------------------------------------

  /** The descriptor is ready for something its latest on_poll said the connection still waits for. */
  predicate Wanted(d: Desc, write: bool) {
    if write then d.w && d.writing else d.r && d.reading
  }

  /** The worker will take p, or will look at the flag, before it forgets p. */
  predicate Carries(x: Worker, p: Pd, write: bool) {
    || p in x.wq || x.pc == Got(p) || x.pc == Retake(p)
    || (x.pc.CheckR? && x.pc.p == p && (if write then x.pc.writing else x.pc.reading))
    || (write && x.pc == CheckW(p, true))
  }

  predicate LoopCarries(l: Loop, p: Pd, write: bool) {
    l == LoadOwn(p) || l == Enqueue(p) || (!write && l.StoreW? && l.p == p)
  }

  ghost predicate Covered(s: Server, p: Pd, write: bool) {
    || LoopCarries(s.loop, p, write) || p in s.gq
    || exists k :: 0 <= k < |s.ws| && Carries(s.ws[k], p, write)
  }

  /** A ready and wanted descriptor that nobody owns is on its way to a worker. */
  ghost predicate NotForgotten(s: Server, p: Pd, write: bool)
    requires p in s.ds
  {
    Waits(s.ds[p], write) ==> Covered(s, p, write)
  }

  predicate Waits(d: Desc, write: bool) {
    !d.bad && !d.own && Wanted(d, write)
  }

  ghost predicate AnswerOk(ds: map<Pd, Desc>, pc: Pc) {
    pc.Polled? && pc.p in ds ==> ds[pc.p].reading == pc.reading && ds[pc.p].writing == pc.writing
  }

  ghost predicate AnswersOk(s: Server) {
    forall k :: 0 <= k < |s.ws| ==> AnswerOk(s.ds, s.ws[k].pc)
  }

  function Actor(e: Event): Option<nat> {
    match e
    case Receive(k) => Some(k)
    case SeeEmpty(k) => Some(k)
    case TakeLocal(k) => Some(k)
    case ReceiveGlobal(k) => Some(k)
    case Own(k) => Some(k)
    case CheckBad(k) => Some(k)
    case PollWrites(k, _, _) => Some(k)
    case PollReturns(k, _, _) => Some(k)
    case Release(k) => Some(k)
    case LoadR(k) => Some(k)
    case LoadW(k) => Some(k)
    case OwnAgain(k) => Some(k)
    case Link(k) => Some(k)
    case _ => None
  }

  lemma Others(s: Server, e: Event, k: nat)
    requires Enabled(s, e) && k < |s.ws| && Actor(e) != Some(k)
    ensures |Apply(s, e).ws| == |s.ws| && Apply(s, e).ws[k].pc == s.ws[k].pc
    ensures forall p :: p in s.ws[k].wq ==> p in Apply(s, e).ws[k].wq
  {
  }

  lemma Answers(s: Server, e: Event, p: Pd)
    requires Enabled(s, e) && p in s.ds
    ensures p in Apply(s, e).ds
    ensures !(e.PollReturns? && s.ws[e.k].pc.p == p) ==> SameAnswer(s.ds[p], Apply(s, e).ds[p])
  {
    match e
    case PollReturns(k, rd, wr) =>
    case Accept(_, _) | MarkBad(_) | ClearW(_) | Requeue(_) | LoopEvent(_, _, _) | LoopStep => AnswersOutside(s, e, p);
    case _ => AnswersWorker(s, e, p);
  }

  predicate SameAnswer(d: Desc, d': Desc) {
    d'.reading == d.reading && d'.writing == d.writing
  }

  lemma AnswersOutside(s: Server, e: Event, p: Pd)
    requires Enabled(s, e) && p in s.ds
    requires e.Accept? || e.MarkBad? || e.ClearW? || e.Requeue? || e.LoopEvent? || e.LoopStep?
    ensures p in Apply(s, e).ds && SameAnswer(s.ds[p], Apply(s, e).ds[p])
  {
  }

  lemma AnswersWorker(s: Server, e: Event, p: Pd)
    requires Enabled(s, e) && p in s.ds && !e.PollReturns?
    requires !(e.Accept? || e.MarkBad? || e.ClearW? || e.Requeue? || e.LoopEvent? || e.LoopStep?)
    ensures p in Apply(s, e).ds && SameAnswer(s.ds[p], Apply(s, e).ds[p])
  {
  }

  lemma ActorAnswers(s: Server, e: Event, k: nat)
    requires Enabled(s, e) && Actor(e) == Some(k)
    ensures |Apply(s, e).ws| == |s.ws| && AnswerOk(Apply(s, e).ds, Apply(s, e).ws[k].pc)
  {
  }

  lemma StepAnswers(s: Server, e: Event)
    requires Inv(s) && Enabled(s, e) && AnswersOk(s)
    ensures AnswersOk(Apply(s, e))
  {
    var n := Apply(s, e);
    assert |n.ws| == |s.ws| by { if s.ws != [] { QueueSteps(s, e, 0); } }
    forall k | 0 <= k < |n.ws| ensures AnswerOk(n.ds, n.ws[k].pc) {
      if Actor(e) == Some(k) {
        ActorAnswers(s, e, k);
      } else {
        OtherAnswers(s, e, k);
      }
    }
  }

  lemma OtherAnswers(s: Server, e: Event, k: nat)
    requires Inv(s) && Enabled(s, e) && AnswersOk(s) && k < |s.ws| && Actor(e) != Some(k)
    ensures |Apply(s, e).ws| == |s.ws| && AnswerOk(Apply(s, e).ds, Apply(s, e).ws[k].pc)
  {
    var pc := s.ws[k].pc;
    Others(s, e, k);
    assert AnswerOk(s.ds, pc) && PcOk(s.ds, k, pc);
    if pc.Polled? {
      Answers(s, e, pc.p);
      assert e.PollReturns? ==> PcOk(s.ds, e.k, s.ws[e.k].pc);
    }
    hide Apply, Inv;
  }

  lemma LoopStillCovers(s: Server, e: Event, p: Pd, write: bool)
    requires Inv(s) && Enabled(s, e) && p in s.ds && LoopCarries(s.loop, p, write)
    requires p in Apply(s, e).ds && !Apply(s, e).ds[p].own
    ensures Covered(Apply(s, e), p, write)
  {
    hide Inv;
    if e == LoopStep && s.loop.Enqueue? {
      var k := s.ds[p].fd % |s.ws|;
      var n := Apply(s, e);
      if |s.ws[k].wq| < s.wcap {
        assert n.ws[k].wq[|s.ws[k].wq|] == p;
        assert Carries(n.ws[k], p, write);
      } else {
        assert n.gq[|s.gq|] == p;
      }
    }
  }

  lemma GlobalStillCovers(s: Server, e: Event, p: Pd, write: bool)
    requires Enabled(s, e) && p in s.gq
    ensures Covered(Apply(s, e), p, write)
  {
    var n := Apply(s, e);
    if e.ReceiveGlobal? && s.gq[0] == p {
      assert Carries(n.ws[e.k], p, write);
    } else {
      assert p in n.gq by { GlobalKeeps(s, e, p); }
    }
  }

  lemma GlobalKeeps(s: Server, e: Event, p: Pd)
    requires Enabled(s, e) && p in s.gq && !(e.ReceiveGlobal? && s.gq[0] == p)
    ensures p in Apply(s, e).gq
  {
  }

  lemma ActorStillCovers(s: Server, e: Event, k: nat, p: Pd, write: bool)
    requires Inv(s) && Enabled(s, e) && Actor(e) == Some(k) && p in s.ds && Carries(s.ws[k], p, write)
    requires p in Apply(s, e).ds && Waits(Apply(s, e).ds[p], write)
    ensures |Apply(s, e).ws| == |s.ws| && Carries(Apply(s, e).ws[k], p, write)
  {
  }

  lemma StillCovers(s: Server, e: Event, p: Pd, write: bool)
    requires Inv(s) && Enabled(s, e) && p in s.ds && Covered(s, p, write)
    requires p in Apply(s, e).ds && Waits(Apply(s, e).ds[p], write)
    ensures Covered(Apply(s, e), p, write)
  {
    if LoopCarries(s.loop, p, write) {
      LoopStillCovers(s, e, p, write);
    } else if p in s.gq {
      GlobalStillCovers(s, e, p, write);
    } else {
      var k :| 0 <= k < |s.ws| && Carries(s.ws[k], p, write);
      hide Apply, Inv, Enabled;
      if Actor(e) == Some(k) {
        ActorStillCovers(s, e, k, p, write);
      } else {
        Others(s, e, k);
      }
      assert Carries(Apply(s, e).ws[k], p, write);
    }
  }

  lemma NewlyWaits(s: Server, e: Event, p: Pd, write: bool)
    requires Inv(s) && Enabled(s, e) && AnswersOk(s) && p in s.ds && !Waits(s.ds[p], write)
    requires p in Apply(s, e).ds && Waits(Apply(s, e).ds[p], write)
    ensures Covered(Apply(s, e), p, write)
  {
    var n := Apply(s, e);
    assert DescOk(s.ws, p, s.ds[p]);
    if e.Release? {
      assert AnswerOk(s.ds, s.ws[e.k].pc);
      assert Carries(n.ws[e.k], p, write);
    } else {
      assert LoopCarries(n.loop, p, write) by { NewlyByLoop(s, e, p, write); }
    }
  }

  predicate Polling(s: Server, k: nat) {
    k < |s.ws| && s.ws[k].pc.Polling?
  }

  /** on_poll touches only a descriptor that is owned. */
  lemma NotPolled(s: Server, e: Event, p: Pd)
    requires Inv(s) && Enabled(s, e) && p in s.ds && (e.PollWrites? || e.PollReturns?)
    ensures Polling(s, e.k) && (s.ds[p].own || s.ws[e.k].pc.p != p)
  {
    assert DescOk(s.ws, p, s.ds[p]) && PcOk(s.ds, e.k, s.ws[e.k].pc);
  }

  lemma NewlyByLoop(s: Server, e: Event, p: Pd, write: bool)
    requires Inv(s) && Enabled(s, e) && p in s.ds && !Waits(s.ds[p], write) && !e.Release?
    requires p in Apply(s, e).ds && Waits(Apply(s, e).ds[p], write)
    ensures LoopCarries(Apply(s, e).loop, p, write)
  {
    if e == LoopStep {
      hide Inv;
      assert Apply(s, e) == DoLoop(s);
    } else {
      hide *;
      StaysQuiet(s, e, p, write);
    }
  }

  /** Only the loop makes a descriptor ready, and only a release or the loop makes it wanted. */
  lemma StaysQuiet(s: Server, e: Event, p: Pd, write: bool)
    requires Inv(s) && Enabled(s, e) && p in s.ds && !Waits(s.ds[p], write) && !e.Release? && !e.LoopStep?
    ensures p in Apply(s, e).ds && !Waits(Apply(s, e).ds[p], write)
  {
    hide *;
    if e.PollWrites? || e.PollReturns? {
      NotPolled(s, e, p);
      PollQuiet(s, e, p, write);
    } else if e.TakeLocal? || e.Own? || e.CheckBad? || e.OwnAgain? || e.Link? {
      OwnerQuiet(s, e, p, write);
    } else {
      RestQuiet(s, e, p, write);
    }
  }

  lemma OwnerQuiet(s: Server, e: Event, p: Pd, write: bool)
    requires Enabled(s, e) && p in s.ds && !Waits(s.ds[p], write)
    requires e.TakeLocal? || e.Own? || e.CheckBad? || e.OwnAgain? || e.Link?
    ensures p in Apply(s, e).ds && !Waits(Apply(s, e).ds[p], write)
  {
  }

  lemma RestQuiet(s: Server, e: Event, p: Pd, write: bool)
    requires Enabled(s, e) && p in s.ds && !Waits(s.ds[p], write) && !e.Release? && !e.LoopStep?
    requires !(e.PollWrites? || e.PollReturns? || e.TakeLocal? || e.Own? || e.CheckBad? || e.OwnAgain? || e.Link?)
    ensures p in Apply(s, e).ds && !Waits(Apply(s, e).ds[p], write)
  {
  }

  lemma PollQuiet(s: Server, e: Event, p: Pd, write: bool)
    requires Enabled(s, e) && p in s.ds && !Waits(s.ds[p], write) && (e.PollWrites? || e.PollReturns?)
    requires Polling(s, e.k) && (s.ds[p].own || s.ws[e.k].pc.p != p)
    ensures p in Apply(s, e).ds && !Waits(Apply(s, e).ds[p], write)
  {
  }

  /** Ready and wanted descriptors, for reading and for writing, are never forgotten. */
  ghost predicate AllCovered(s: Server) {
    forall p, write: bool :: p in s.ds ==> NotForgotten(s, p, write)
  }

  lemma StepCovers(s: Server, e: Event)
    requires Inv(s) && Enabled(s, e) && AnswersOk(s) && AllCovered(s)
    ensures AllCovered(Apply(s, e))
  {
    hide Apply, Inv, Enabled, Covered, Waits;
    var n := Apply(s, e);
    forall p, write: bool | p in n.ds ensures NotForgotten(n, p, write) {
      if p !in s.ds {
        FreshIsQuiet(s, e, p, write);
      } else if Waits(n.ds[p], write) {
        if Waits(s.ds[p], write) {
          assert NotForgotten(s, p, write);
          StillCovers(s, e, p, write);
        } else {
          NewlyWaits(s, e, p, write);
        }
      }
    }
  }

  lemma FreshIsQuiet(s: Server, e: Event, p: Pd, write: bool)
    requires Enabled(s, e) && p !in s.ds && p in Apply(s, e).ds
    ensures !Waits(Apply(s, e).ds[p], write)
  {
  }

  lemma {:induction false} RunCovers(ss: seq<Server>, es: seq<Event>, i: nat)
    requires Run(ss, es) && i < |ss|
    ensures AnswersOk(ss[i]) && AllCovered(ss[i])
  {
    hide Inv, Enabled, Apply;
    if i > 0 {
      RunCovers(ss, es, i - 1);
      RunKeeps(ss, es, i - 1);
      assert Enabled(ss[i - 1], es[i - 1]) && ss[i - 1 + 1] == Apply(ss[i - 1], es[i - 1]);
      StepAnswers(ss[i - 1], es[i - 1]);
      StepCovers(ss[i - 1], es[i - 1]);
    }
  }

  /** Nothing is in flight: the loop waits, every channel is empty and every worker blocks. */
  ghost predicate Settled(s: Server) {
    s.loop == Wait && s.gq == [] && forall k :: 0 <= k < |s.ws| ==>
      s.ws[k].pc == Block && s.ws[k].wq == [] && s.ws[k].q == []
  }

  /** No lost wake-up: when everything has settled, no live descriptor is ready for what it waits for. */
  lemma NoLostWakeup(ss: seq<Server>, es: seq<Event>, i: nat, p: Pd)
    requires Run(ss, es) && i < |ss| && Settled(ss[i]) && p in ss[i].ds && !ss[i].ds[p].bad
    ensures !ss[i].ds[p].own
    ensures !(ss[i].ds[p].r && ss[i].ds[p].reading) && !(ss[i].ds[p].w && ss[i].ds[p].writing)
  {
    var s := ss[i];
    RunKeeps(ss, es, i);
    RunCovers(ss, es, i);
    assert DescOk(s.ws, p, s.ds[p]);
    assert NotForgotten(s, p, false) && NotForgotten(s, p, true);
  }

  /** The event loop has reported p ready and has set the flag, or is about to. */
  predicate Flagged(s: Server, p: Pd, write: bool) {
    p in s.ds &&
      if write then s.ds[p].w || (s.loop.StoreR? && s.loop.p == p && s.loop.w) || s.loop == StoreW(p, true)
      else s.ds[p].r || (s.loop.StoreR? && s.loop.p == p && s.loop.r)
  }

  /** Only the connection itself takes a flag back: in its on_poll, or when it has written all. */
  predicate TakesBack(s: Server, e: Event, p: Pd, write: bool) {
    (e.PollWrites? && e.k < |s.ws| && s.ws[e.k].pc == YagwWorkers.Pc.Polling(p)) || (write && e == ClearW(p))
  }

  lemma FlagStays(s: Server, e: Event, p: Pd, write: bool)
    requires Enabled(s, e) && Flagged(s, p, write) && !TakesBack(s, e, p, write)
    ensures Flagged(Apply(s, e), p, write)
  {
  }

  lemma {:induction false} FlagLasts(ss: seq<Server>, es: seq<Event>, i: nat, j: nat, p: Pd, write: bool)
    requires Run(ss, es) && i <= j < |ss| && Flagged(ss[i], p, write)
    requires forall k :: i <= k < j ==> !TakesBack(ss[k], es[k], p, write)
    ensures Flagged(ss[j], p, write)
    decreases j
  {
    hide Flagged, TakesBack, Apply, Enabled;
    if i < j {
      FlagLasts(ss, es, i, j - 1, p, write);
      assert Enabled(ss[j - 1], es[j - 1]) && ss[j - 1 + 1] == Apply(ss[j - 1], es[j - 1]);
      FlagStays(ss[j - 1], es[j - 1], p, write);
    }
  }

  /**
   * An event that the loop reports is answered: once everything has settled, a live connection that waits for what was
   * reported has taken the report back in between.
   */
  lemma EventIsAnswered(ss: seq<Server>, es: seq<Event>, i: nat, j: nat, p: Pd, write: bool)
    requires Run(ss, es) && i < j < |ss| && es[i].LoopEvent? && es[i].p == p && (if write then es[i].w else es[i].r)
    requires Settled(ss[j]) && p in ss[j].ds && !ss[j].ds[p].bad
    requires if write then ss[j].ds[p].writing else ss[j].ds[p].reading
    ensures exists k :: i < k < j && TakesBack(ss[k], es[k], p, write)
  {
    assert Enabled(ss[i], es[i]) && ss[i + 1] == Apply(ss[i], es[i]);
    assert Flagged(ss[i + 1], p, write);
    hide TakesBack, Apply, Enabled;
    if forall k :: i < k < j ==> !TakesBack(ss[k], es[k], p, write) {
      FlagLasts(ss, es, i + 1, j, p, write);
      NoLostWakeup(ss, es, j, p);
    }
  }

  /** The next step of a worker, read off its place in the loop. */
  function NextStep(s: Server, k: nat): Event
    requires k < |s.ws|
  {
    match s.ws[k].pc
    case Top => if s.ws[k].wq != [] then Receive(k) else SeeEmpty(k)
    case Empty => TakeLocal(k)
    case Block => if s.ws[k].wq != [] then Receive(k) else ReceiveGlobal(k)
    case Got(_) => Own(k)
    case Held(_) => CheckBad(k)
    case Polling(_) => PollReturns(k, false, false)
    case Polled(_, _, _) => Release(k)
    case CheckR(_, _, _) => LoadR(k)
    case CheckW(_, _) => LoadW(k)
    case Retake(_) => OwnAgain(k)
    case Append(_) => Link(k)
  }

  lemma InRange(s: Server, k: nat)
    requires Inv(s) && k < |s.ws|
    ensures Named(s.ws[k].pc).Some? ==> s.ws[k].pc.p in s.ds
    ensures s.ws[k].q1.Some? ==> s.ws[k].q1.value in s.ds && s.ws[k].q != []
    ensures s.ws[k].q0.Some? ==> s.ws[k].q0.value in s.ds
  {
    assert PcOk(s.ds, k, s.ws[k].pc) && QueueOk(s.ds, k, s.ws[k]);
    hide Inv;
    var q := s.ws[k].q;
    assert q != [] ==> LinkedAt(s.ds, k, q[0], After(q, 0)) && LinkedAt(s.ds, k, q[|q| - 1], After(q, |q| - 1));
  }

  lemma WorkerReady(s: Server, k: nat)
    requires Inv(s) && k < |s.ws|
    ensures Enabled(s, NextStep(s, k)) <==> !(s.ws[k].pc == Block && s.ws[k].wq == [] && s.gq == [])
  {
    hide Inv;
    InRange(s, k);
  }

  /** A worker stops only where it may block, with nothing to receive; the loop only at full channels. */
  lemma OnlyChannelsBlock(ss: seq<Server>, es: seq<Event>, i: nat, k: nat)
    requires Run(ss, es) && i < |ss| && k < |ss[i].ws|
    ensures Enabled(ss[i], NextStep(ss[i], k)) <==> !(ss[i].ws[k].pc == Block && ss[i].ws[k].wq == [] && ss[i].gq == [])
    ensures ss[i].loop != Wait ==> ss[i].loop.p in ss[i].ds
    ensures ss[i].loop != Wait ==>
      (Enabled(ss[i], LoopStep) <==> !(ss[i].loop.Enqueue? && !HasRoom(ss[i], ss[i].loop.p)))
  {
    hide Run, NextStep, Enabled, Inv;
    RunKeeps(ss, es, i);
    LoopReady(ss[i]);
    WorkerReady(ss[i], k);
  }

  lemma LoopReady(s: Server)
    requires Inv(s)
    ensures s.loop != Wait ==> s.loop.p in s.ds
    ensures s.loop != Wait ==> (Enabled(s, LoopStep) <==> !(s.loop.Enqueue? && !HasRoom(s, s.loop.p)))
  {
    assert s.loop != Wait ==> s.loop.p in s.ds;
    hide Inv;
  }
}
