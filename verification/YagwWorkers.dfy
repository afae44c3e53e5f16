/**
 * The gateway's poll descriptors: workers, their local queues, the event loop and the connections,
 * interleaved at every atomic load, store, compare-and-swap and channel operation.
 */
module YagwWorkers {
  import opened Collections

  type Pd = nat

  /** History: who has a descriptor whose own flag is set. */
  datatype Place = Free | With(w: nat) | Queued(w: nat) | Abandoned

  /** A descriptor; `reading` and `writing` are history, what its latest on_poll answered. */
  datatype Desc = Desc(
    fd: nat, own: bool, bad: bool, r: bool, w: bool, next: Option<Pd>, reading: bool, writing: bool, at: Place)

  /** Where a worker is in its loop; the booleans are what on_poll answered. */
  datatype Pc =
    | Top
    | Empty
    | Block
    | Got(p: Pd)
    | Held(p: Pd)
    | Polling(p: Pd)
    | Polled(p: Pd, reading: bool, writing: bool)
    | CheckR(p: Pd, reading: bool, writing: bool)
    | CheckW(p: Pd, writing: bool)
    | Retake(p: Pd)
    | Append(p: Pd)

  /** A worker: its channel, the ends of its linked local queue, and, as history, that queue's elements. */
  datatype Worker = Worker(pc: Pc, wq: seq<Pd>, q0: Option<Pd>, q1: Option<Pd>, q: seq<Pd>)

  datatype Loop = Wait | StoreR(p: Pd, r: bool, w: bool) | StoreW(p: Pd, w: bool) | LoadOwn(p: Pd) | Enqueue(p: Pd)

  datatype Server = Server(wcap: nat, gcap: nat, ds: map<Pd, Desc>, ws: seq<Worker>, gq: seq<Pd>, loop: Loop)

  datatype Event =
    | Accept(p: Pd, fd: nat)
    | MarkBad(p: Pd)
    | ClearW(p: Pd)
    | Requeue(p: Pd)
    | LoopEvent(p: Pd, r: bool, w: bool)
    | LoopStep
    | Receive(k: nat)
    | SeeEmpty(k: nat)
    | TakeLocal(k: nat)
    | ReceiveGlobal(k: nat)
    | Own(k: nat)
    | CheckBad(k: nat)
    | PollWrites(k: nat, r: bool, w: bool)
    | PollReturns(k: nat, reading: bool, writing: bool)
    | Release(k: nat)
    | LoadR(k: nat)
    | LoadW(k: nat)
    | OwnAgain(k: nat)
    | Link(k: nat)

  predicate Enabled(s: Server, e: Event) {
    match e
    case Accept(p, fd) => p !in s.ds
    case MarkBad(p) => p in s.ds
    case ClearW(p) => p in s.ds
    case Requeue(p) => p in s.ds && |s.gq| < s.gcap
    case LoopEvent(p, r, w) => s.loop == Wait && p in s.ds && !s.ds[p].bad
    case LoopStep => s.loop != Wait && s.loop.p in s.ds && (s.loop.Enqueue? ==> HasRoom(s, s.loop.p))
    case Receive(k) => k < |s.ws| && (s.ws[k].pc == Top || s.ws[k].pc == Block) && s.ws[k].wq != []
    case SeeEmpty(k) => k < |s.ws| && s.ws[k].pc == Top && s.ws[k].wq == []
    case TakeLocal(k) =>
      k < |s.ws| && s.ws[k].pc == Empty && (s.ws[k].q1.Some? ==> s.ws[k].q1.value in s.ds && s.ws[k].q != [])
    case ReceiveGlobal(k) => k < |s.ws| && s.ws[k].pc == Block && s.gq != []
    case Own(k) => k < |s.ws| && s.ws[k].pc.Got? && s.ws[k].pc.p in s.ds
    case CheckBad(k) => k < |s.ws| && s.ws[k].pc.Held? && s.ws[k].pc.p in s.ds
    case PollWrites(k, r, w) => k < |s.ws| && s.ws[k].pc.Polling? && s.ws[k].pc.p in s.ds
    case PollReturns(k, rd, wr) => k < |s.ws| && s.ws[k].pc.Polling? && s.ws[k].pc.p in s.ds
    case Release(k) => k < |s.ws| && s.ws[k].pc.Polled? && s.ws[k].pc.p in s.ds
    case LoadR(k) => k < |s.ws| && s.ws[k].pc.CheckR? && s.ws[k].pc.p in s.ds
    case LoadW(k) => k < |s.ws| && s.ws[k].pc.CheckW? && s.ws[k].pc.p in s.ds
    case OwnAgain(k) => k < |s.ws| && s.ws[k].pc.Retake? && s.ws[k].pc.p in s.ds
    case Link(k) =>
      k < |s.ws| && s.ws[k].pc.Append? && s.ws[k].pc.p in s.ds && (s.ws[k].q0.Some? ==> s.ws[k].q0.value in s.ds)
  }

  // ---- the steps --------------------------------------------------------------------------------

  function SetPc(s: Server, k: nat, pc: Pc): Server
    requires k < |s.ws|
  {
    s.(ws := s.ws[k := s.ws[k].(pc := pc)])
  }

  function SetDesc(s: Server, p: Pd, d: Desc): Server {
    s.(ds := s.ds[p := d])
  }

  /** Worker k moves to pc and descriptor p becomes d. */
  function Both(s: Server, k: nat, pc: Pc, p: Pd, d: Desc): Server
    requires k < |s.ws|
  {
    SetDesc(SetPc(s, k, pc), p, d)
  }

  /** The worker channel chosen by file descriptor, or else the global one, can take a descriptor. */
  predicate HasRoom(s: Server, p: Pd)
    requires p in s.ds
  {
    |s.ws| > 0 && (|s.ws[s.ds[p].fd % |s.ws|].wq| < s.wcap || |s.gq| < s.gcap)
  }

  function DoLoop(s: Server): Server
    requires Enabled(s, LoopStep)
  {
    match s.loop
    case StoreR(p, r, w) => SetDesc(s, p, s.ds[p].(r := s.ds[p].r || r)).(loop := StoreW(p, w))
    case StoreW(p, w) => SetDesc(s, p, s.ds[p].(w := s.ds[p].w || w)).(loop := LoadOwn(p))
    case LoadOwn(p) => s.(loop := if s.ds[p].own then Wait else Enqueue(p))
    case Enqueue(p) =>
      var k := s.ds[p].fd % |s.ws|;
      var x := s.ws[k];
      if |x.wq| < s.wcap then s.(ws := s.ws[k := x.(wq := x.wq + [p])], loop := Wait)
      else s.(gq := s.gq + [p], loop := Wait)
  }

  /** The front of the linked local queue, if there is one. */
  function DoTakeLocal(s: Server, k: nat): Server
    requires Enabled(s, TakeLocal(k))
  {
    var x := s.ws[k];
    match x.q1
    case None => SetPc(s, k, Block)
    case Some(p) =>
      var rest := s.ds[p].next;
      SetDesc(s, p, s.ds[p].(next := None, at := With(k)))
        .(ws := s.ws[k := x.(pc := Held(p), q1 := rest, q0 := if rest == None then None else x.q0, q := x.q[1..])])
  }

  function DoOwn(s: Server, k: nat): Server
    requires Enabled(s, Own(k))
  {
    var p := s.ws[k].pc.p;
    if s.ds[p].own then SetPc(s, k, Top) else Both(s, k, Held(p), p, s.ds[p].(own := true, at := With(k)))
  }

  /** A bad descriptor is dropped with its own flag still set. */
  function DoCheckBad(s: Server, k: nat): Server
    requires Enabled(s, CheckBad(k))
  {
    var p := s.ws[k].pc.p;
    if s.ds[p].bad then Both(s, k, Top, p, s.ds[p].(at := Abandoned)) else SetPc(s, k, Polling(p))
  }

  function DoOwnAgain(s: Server, k: nat): Server
    requires Enabled(s, OwnAgain(k))
  {
    var p := s.ws[k].pc.p;
    if s.ds[p].own then SetPc(s, k, Top) else Both(s, k, Append(p), p, s.ds[p].(own := true, at := With(k)))
  }

  function DoLink(s: Server, k: nat): Server
    requires Enabled(s, Link(k))
  {
    var x := s.ws[k];
    var p := x.pc.p;
    var linked := if x.q0.Some? then SetDesc(s, x.q0.value, s.ds[x.q0.value].(next := Some(p))) else s;
    SetDesc(linked, p, linked.ds[p].(at := Queued(k)))
      .(ws := s.ws[k := x.(pc := Top, q0 := Some(p), q1 := if x.q0.Some? then x.q1 else Some(p), q := x.q + [p])])
  }

  function Apply(s: Server, e: Event): Server
    requires Enabled(s, e)
  {
    match e
    case Accept(p, fd) => SetDesc(s, p, Desc(fd, false, false, false, false, None, true, true, Free))
    case MarkBad(p) => SetDesc(s, p, s.ds[p].(bad := true))
    case ClearW(p) => SetDesc(s, p, s.ds[p].(w := false))
    case Requeue(p) => s.(gq := s.gq + [p])
    case LoopEvent(p, r, w) => s.(loop := StoreR(p, r, w))
    case LoopStep => DoLoop(s)
    case Receive(k) => s.(ws := s.ws[k := s.ws[k].(pc := Got(s.ws[k].wq[0]), wq := s.ws[k].wq[1..])])
    case SeeEmpty(k) => SetPc(s, k, Empty)
    case TakeLocal(k) => DoTakeLocal(s, k)
    case ReceiveGlobal(k) => SetPc(s, k, Got(s.gq[0])).(gq := s.gq[1..])
    case Own(k) => DoOwn(s, k)
    case CheckBad(k) => DoCheckBad(s, k)
    case PollWrites(k, r, w) => SetDesc(s, s.ws[k].pc.p, s.ds[s.ws[k].pc.p].(r := r, w := w))
    case PollReturns(k, rd, wr) =>
      Both(s, k, Polled(s.ws[k].pc.p, rd, wr), s.ws[k].pc.p, s.ds[s.ws[k].pc.p].(reading := rd, writing := wr))
    case Release(k) =>
      var x := s.ws[k].pc;
      Both(s, k, CheckR(x.p, x.reading, x.writing), x.p, s.ds[x.p].(own := false, at := Free))
    case LoadR(k) =>
      var x := s.ws[k].pc;
      SetPc(s, k, if s.ds[x.p].r && x.reading then Retake(x.p) else CheckW(x.p, x.writing))
    case LoadW(k) =>
      var x := s.ws[k].pc;
      SetPc(s, k, if s.ds[x.p].w && x.writing then Retake(x.p) else Top)
    case OwnAgain(k) => DoOwnAgain(s, k)
    case Link(k) => DoLink(s, k)
  }

  // ---- the ownership invariant --------------------------------------------------------------------

  /** The descriptor this worker is using: nobody else may. */
  function Used(pc: Pc): Option<Pd> {
    if pc.Held? || pc.Polling? || pc.Polled? || pc.Append? then Some(pc.p) else None
  }

  function Named(pc: Pc): Option<Pd> {
    if pc.Top? || pc.Empty? || pc.Block? then None else Some(pc.p)
  }

  /** own is set exactly while some worker uses p, p waits in a local queue, or p was dropped as bad. */
  ghost predicate DescOk(ws: seq<Worker>, p: Pd, d: Desc) {
    && (d.own <==> d.at != Free)
    && (!d.at.Queued? ==> d.next == None)
    && match d.at
       case Free => true
       case With(k) => k < |ws| && Used(ws[k].pc) == Some(p)
       case Queued(k) => k < |ws| && p in ws[k].q
       case Abandoned => d.bad
  }

  function After(q: seq<Pd>, i: nat): Option<Pd> {
    if i + 1 < |q| then Some(q[i + 1]) else None
  }

  /** p is queued at worker k and linked to nx. */
  predicate LinkedAt(ds: map<Pd, Desc>, k: nat, p: Pd, nx: Option<Pd>) {
    p in ds && ds[p].at == Queued(k) && ds[p].next == nx
  }

  /** The linked list from q1 to q0 is exactly q, and its elements, all different, are queued here. */
  ghost predicate QueueOk(ds: map<Pd, Desc>, k: nat, x: Worker) {
    var q := x.q;
    && x.q1 == (if q == [] then None else Some(q[0]))
    && x.q0 == (if q == [] then None else Some(q[|q| - 1]))
    && (forall i :: 0 <= i < |q| ==> LinkedAt(ds, k, q[i], After(q, i)))
    && (forall i, j :: 0 <= i < j < |q| ==> q[i] != q[j])
  }

  ghost predicate PcOk(ds: map<Pd, Desc>, k: nat, pc: Pc) {
    && (Named(pc).Some? ==> pc.p in ds)
    && (Used(pc).Some? ==> ds[pc.p].at == With(k))
  }

  predicate AllIn(ds: map<Pd, Desc>, q: seq<Pd>) {
    forall i :: 0 <= i < |q| ==> q[i] in ds
  }

  ghost predicate DescsOk(s: Server) { forall p :: p in s.ds ==> DescOk(s.ws, p, s.ds[p]) }

  ghost predicate QueuesOk(s: Server) { forall k :: 0 <= k < |s.ws| ==> QueueOk(s.ds, k, s.ws[k]) }

  ghost predicate PcsOk(s: Server) { forall k :: 0 <= k < |s.ws| ==> PcOk(s.ds, k, s.ws[k].pc) }

  ghost predicate ChansOk(s: Server) {
    && (forall k :: 0 <= k < |s.ws| ==> AllIn(s.ds, s.ws[k].wq))
    && AllIn(s.ds, s.gq)
    && (s.loop != Wait ==> s.loop.p in s.ds)
  }

  ghost predicate Inv(s: Server) {
    DescsOk(s) && QueuesOk(s) && PcsOk(s) && ChansOk(s)
  }

  // ---- every step keeps it ----------------------------------------------------------------------

  /** The part of a descriptor that ownership rests on. */
  predicate SameHold(d: Desc, e: Desc) {
    d.own == e.own && d.next == e.next && d.at == e.at && (d.bad ==> e.bad)
  }

  predicate SameQueue(x: Worker, y: Worker) {
    x.q0 == y.q0 && x.q1 == y.q1 && x.q == y.q
  }

  lemma QueueFrame(ds: map<Pd, Desc>, es: map<Pd, Desc>, k: nat, x: Worker, y: Worker)
    requires QueueOk(ds, k, x) && SameQueue(x, y)
    requires forall p :: p in ds && ds[p].at == Queued(k) ==>
      p in es && es[p].at == Queued(k) && es[p].next == ds[p].next
    ensures QueueOk(es, k, y)
  {
    var q := x.q;
    forall i | 0 <= i < |q| ensures LinkedAt(es, k, q[i], After(q, i)) {
      assert LinkedAt(ds, k, q[i], After(q, i));
    }
  }

  /** Nobody's hold changes between s and n; descriptors may be added. */
  ghost predicate HoldsSame(s: Server, n: Server) {
    && |n.ws| == |s.ws|
    && (forall k :: 0 <= k < |s.ws| ==> SameQueue(s.ws[k], n.ws[k]))
    && (forall p :: p in s.ds ==> p in n.ds && SameHold(s.ds[p], n.ds[p]))
    && (forall p :: p in n.ds && p !in s.ds ==> n.ds[p].own == false && n.ds[p].at == Free && n.ds[p].next == None)
    && (forall k :: 0 <= k < |s.ws| ==> Named(n.ws[k].pc).Some? ==> n.ws[k].pc.p in s.ds)
    && (forall k :: 0 <= k < |s.ws| ==> Used(n.ws[k].pc) == Used(s.ws[k].pc))
  }

  lemma FrameKeeps(s: Server, n: Server)
    requires Inv(s) && HoldsSame(s, n) && ChansOk(n)
    ensures Inv(n)
  {
    hide ChansOk;
    forall k | 0 <= k < |n.ws| ensures QueueOk(n.ds, k, n.ws[k]) && PcOk(n.ds, k, n.ws[k].pc) {
      assert QueueOk(s.ds, k, s.ws[k]) && PcOk(s.ds, k, s.ws[k].pc);
      QueueFrame(s.ds, n.ds, k, s.ws[k], n.ws[k]);
    }
    forall p | p in n.ds ensures DescOk(n.ws, p, n.ds[p]) {
      assert p in s.ds ==> DescOk(s.ws, p, s.ds[p]);
    }
  }

  /** The steps in which no descriptor changes hands. */
  predicate Passive(s: Server, e: Event)
    requires Enabled(s, e)
  {
    match e
    case TakeLocal(k) => s.ws[k].q1 == None
    case Own(k) => s.ds[s.ws[k].pc.p].own
    case CheckBad(k) => !s.ds[s.ws[k].pc.p].bad
    case Release(k) => false
    case OwnAgain(k) => s.ds[s.ws[k].pc.p].own
    case Link(k) => false
    case _ => true
  }

  lemma PassiveHolds(s: Server, e: Event)
    requires Inv(s) && Enabled(s, e) && Passive(s, e)
    ensures HoldsSame(s, Apply(s, e))
  {
    hide HoldsSame, Inv;
    match e
    case Accept(_, _) | MarkBad(_) | ClearW(_) | Requeue(_) | LoopEvent(_, _, _) | LoopStep =>
      PassiveOutside(s, e);
    case _ =>
      PassiveWorker(s, e);
  }

  lemma PassiveOutside(s: Server, e: Event)
    requires Inv(s) && Enabled(s, e) && Passive(s, e)
    requires e.Accept? || e.MarkBad? || e.ClearW? || e.Requeue? || e.LoopEvent? || e.LoopStep?
    ensures HoldsSame(s, Apply(s, e))
  {
    hide HoldsSame, DescsOk, QueuesOk, PcsOk;
    DescsChange(s, Apply(s, e));
  }

  /** Only channels, flags and new descriptors differ. */
  lemma DescsChange(s: Server, n: Server)
    requires PcsOk(s) && |n.ws| == |s.ws|
    requires forall k :: 0 <= k < |s.ws| ==> n.ws[k].pc == s.ws[k].pc && SameQueue(s.ws[k], n.ws[k])
    requires forall p :: p in s.ds ==> p in n.ds && SameHold(s.ds[p], n.ds[p])
    requires forall p :: p in n.ds && p !in s.ds ==> n.ds[p].own == false && n.ds[p].at == Free && n.ds[p].next == None
    ensures HoldsSame(s, n)
  {
    forall j | 0 <= j < |s.ws| && Named(n.ws[j].pc).Some? ensures n.ws[j].pc.p in s.ds {
      assert PcOk(s.ds, j, s.ws[j].pc);
    }
  }

  /** Worker k moves on with the same queue and the same descriptor in use. */
  lemma WorkerMoves(s: Server, n: Server, k: nat, x: Worker)
    requires PcsOk(s) && k < |s.ws| && n.ws == s.ws[k := x]
    requires SameQueue(s.ws[k], x) && Used(x.pc) == Used(s.ws[k].pc) && (Named(x.pc).Some? ==> x.pc.p in s.ds)
    requires n.ds.Keys == s.ds.Keys && forall p :: p in s.ds ==> SameHold(s.ds[p], n.ds[p])
    ensures HoldsSame(s, n)
  {
    forall j | 0 <= j < |s.ws| && Named(n.ws[j].pc).Some? ensures n.ws[j].pc.p in s.ds {
      assert PcOk(s.ds, j, s.ws[j].pc);
    }
  }

  lemma PassiveWorker(s: Server, e: Event)
    requires Inv(s) && Enabled(s, e) && Passive(s, e)
    requires !e.Accept? && !e.MarkBad? && !e.ClearW? && !e.Requeue? && !e.LoopEvent? && !e.LoopStep?
    ensures HoldsSame(s, Apply(s, e))
  {
    hide HoldsSame, DescsOk, QueuesOk, PcsOk;
    WorkerMoves(s, Apply(s, e), e.k, Apply(s, e).ws[e.k]);
  }

  lemma PassiveChans(s: Server, e: Event)
    requires Inv(s) && Enabled(s, e) && Passive(s, e)
    ensures ChansOk(Apply(s, e))
  {
    assert ChansOk(s);
    hide Inv, ChansOk;
    match e
    case Accept(_, _) | MarkBad(_) | ClearW(_) | Requeue(_) | LoopEvent(_, _, _) | LoopStep =>
      ChansOutside(s, e);
    case _ =>
      ChansWorker(s, e);
  }

  lemma ChansOutside(s: Server, e: Event)
    requires ChansOk(s) && Enabled(s, e)
    requires e.Accept? || e.MarkBad? || e.ClearW? || e.Requeue? || e.LoopEvent? || e.LoopStep?
    ensures ChansOk(Apply(s, e))
  {
  }

  lemma ChansWorker(s: Server, e: Event)
    requires ChansOk(s) && Enabled(s, e) && Passive(s, e)
    requires !(e.Accept? || e.MarkBad? || e.ClearW? || e.Requeue? || e.LoopEvent? || e.LoopStep?)
    ensures ChansOk(Apply(s, e))
  {
  }

  /** Worker k takes or gives up p, which is in no queue before or after. */
  ghost predicate HandOver(s: Server, k: nat, pc: Pc, p: Pd, d: Desc) {
    && k < |s.ws| && p in s.ds
    && (s.ds[p].at == Free || s.ds[p].at == With(k))
    && d.next == None && !d.at.Queued?
    && Used(s.ws[k].pc) in {None, Some(p)} && Used(pc) in {None, Some(p)}
  }

  lemma HandOverWorkers(s: Server, k: nat, pc: Pc, p: Pd, d: Desc)
    requires Inv(s) && HandOver(s, k, pc, p, d) && PcOk(Both(s, k, pc, p, d).ds, k, pc)
    ensures QueuesOk(Both(s, k, pc, p, d)) && PcsOk(Both(s, k, pc, p, d))
  {
    hide DescsOk, ChansOk;
    var n := Both(s, k, pc, p, d);
    forall j | 0 <= j < |n.ws| ensures QueueOk(n.ds, j, n.ws[j]) && PcOk(n.ds, j, n.ws[j].pc) {
      hide QueueOk;
      assert QueueOk(s.ds, j, s.ws[j]) && PcOk(s.ds, j, s.ws[j].pc);
      QueueFrame(s.ds, n.ds, j, s.ws[j], n.ws[j]);
    }
  }

  lemma HandOverDescs(s: Server, k: nat, pc: Pc, p: Pd, d: Desc)
    requires Inv(s) && HandOver(s, k, pc, p, d) && DescOk(Both(s, k, pc, p, d).ws, p, d)
    ensures DescsOk(Both(s, k, pc, p, d))
  {
    hide QueuesOk, PcsOk, ChansOk;
    var n := Both(s, k, pc, p, d);
    forall u | u in n.ds ensures DescOk(n.ws, u, n.ds[u]) {
      assert DescOk(s.ws, u, s.ds[u]);
    }
  }

  lemma HandOverKeeps(s: Server, k: nat, pc: Pc, p: Pd, d: Desc)
    requires Inv(s) && HandOver(s, k, pc, p, d)
    requires PcOk(Both(s, k, pc, p, d).ds, k, pc) && DescOk(Both(s, k, pc, p, d).ws, p, d)
    ensures Inv(Both(s, k, pc, p, d))
  {
    HandOverWorkers(s, k, pc, p, d);
    HandOverDescs(s, k, pc, p, d);
    hide DescsOk, QueuesOk, PcsOk;
  }

  lemma HoldOf(s: Server, k: nat, p: Pd)
    requires Inv(s) && k < |s.ws| && p in s.ds
    ensures DescOk(s.ws, p, s.ds[p]) && PcOk(s.ds, k, s.ws[k].pc)
  {
  }

  lemma OwnerKeeps(s: Server, e: Event)
    requires Inv(s) && Enabled(s, e) && !Passive(s, e) && (e.Own? || e.CheckBad? || e.Release? || e.OwnAgain?)
    ensures Inv(Apply(s, e))
  {
    hide Inv, DoLoop, DoTakeLocal, DoLink;
    var p := s.ws[e.k].pc.p;
    HoldOf(s, e.k, p);
    HandOverKeeps(s, e.k, Apply(s, e).ws[e.k].pc, p, Apply(s, e).ds[p]);
  }

  // Taking from the front of the local queue.

  lemma TakenQueue(s: Server, k: nat)
    requires Inv(s) && Enabled(s, TakeLocal(k)) && s.ws[k].q1.Some?
    ensures QueueOk(DoTakeLocal(s, k).ds, k, DoTakeLocal(s, k).ws[k])
    ensures s.ws[k].q == [s.ws[k].q1.value] + DoTakeLocal(s, k).ws[k].q
  {
    hide DescsOk, PcsOk, ChansOk;
    var n := DoTakeLocal(s, k);
    assert QueueOk(s.ds, k, s.ws[k]);
    var q, t := s.ws[k].q, n.ws[k].q;
    assert LinkedAt(s.ds, k, q[0], After(q, 0));
    forall i | 0 <= i < |t| ensures LinkedAt(n.ds, k, t[i], After(t, i)) {
      assert LinkedAt(s.ds, k, q[i + 1], After(q, i + 1));
    }
  }

  lemma FirstQueued(s: Server, k: nat)
    requires Inv(s) && k < |s.ws| && s.ws[k].q1.Some?
    ensures s.ws[k].q != [] && s.ws[k].q1 == Some(s.ws[k].q[0]) && s.ws[k].q[0] in s.ds
    ensures s.ds[s.ws[k].q[0]].at == Queued(k)
  {
    hide DescsOk, ChansOk, PcsOk;
    assert QueueOk(s.ds, k, s.ws[k]);
    assert LinkedAt(s.ds, k, s.ws[k].q[0], After(s.ws[k].q, 0));
  }

  lemma TakenWorkers(s: Server, k: nat)
    requires Inv(s) && Enabled(s, TakeLocal(k)) && s.ws[k].q1.Some?
    ensures QueuesOk(DoTakeLocal(s, k)) && PcsOk(DoTakeLocal(s, k))
  {
    hide DescsOk, ChansOk;
    var n := DoTakeLocal(s, k);
    FirstQueued(s, k);
    TakenQueue(s, k);
    hide QueueOk;
    forall j | 0 <= j < |n.ws| ensures QueueOk(n.ds, j, n.ws[j]) && PcOk(n.ds, j, n.ws[j].pc) {
      assert QueueOk(s.ds, j, s.ws[j]) && PcOk(s.ds, j, s.ws[j].pc);
      if j != k { QueueFrame(s.ds, n.ds, j, s.ws[j], n.ws[j]); }
    }
  }

  /** A descriptor keeps its place when worker k changes, if k still uses or queues it. */
  lemma DescMoves(ws: seq<Worker>, k: nat, x: Worker, p: Pd, d: Desc)
    requires DescOk(ws, p, d) && k < |ws|
    requires d.at == With(k) ==> Used(x.pc) == Some(p)
    requires d.at == Queued(k) && p in ws[k].q ==> p in x.q
    ensures DescOk(ws[k := x], p, d)
  {
  }

  lemma TakeWrites(s: Server, k: nat)
    requires Inv(s) && Enabled(s, TakeLocal(k)) && s.ws[k].q1.Some?
    ensures var n, x, p := DoTakeLocal(s, k), s.ws[k], s.ws[k].q1.value;
      && x.q != [] && p == x.q[0] && p in s.ds && s.ds[p].own && x.pc == Empty
      && n.ds == s.ds[p := s.ds[p].(next := None, at := With(k))]
      && n.ws == s.ws[k := n.ws[k]] && n.ws[k].pc == Held(p) && x.q == [p] + n.ws[k].q
  {
    assert QueueOk(s.ds, k, s.ws[k]);
    var q := s.ws[k].q;
    assert LinkedAt(s.ds, k, q[0], After(q, 0));
    assert DescOk(s.ws, q[0], s.ds[q[0]]);
    hide Inv;
  }

  lemma TakenDescs(s: Server, k: nat)
    requires Inv(s) && Enabled(s, TakeLocal(k)) && s.ws[k].q1.Some?
    ensures DescsOk(DoTakeLocal(s, k))
  {
    hide Inv, DoTakeLocal, DescOk;
    TakeWrites(s, k);
    var n := DoTakeLocal(s, k);
    forall u | u in n.ds ensures DescOk(n.ws, u, n.ds[u]) {
      HoldOf(s, k, u);
      OneTaken(s.ws, k, n.ws[k], s.ws[k].q1.value, u, s.ds[u], n.ds[u]);
    }
  }

  lemma OneTaken(ws: seq<Worker>, k: nat, x: Worker, p: Pd, u: Pd, d: Desc, e: Desc)
    requires k < |ws| && DescOk(ws, u, d) && ws[k].pc == Empty && x.pc == Held(p) && ws[k].q == [p] + x.q
    requires e == if u == p then d.(next := None, at := With(k)) else d
    requires u == p ==> d.own
    ensures DescOk(ws[k := x], u, e)
  {
    if u != p { DescMoves(ws, k, x, u, d); }
  }

  // Linking at the back.

  /** What linking writes: the new last element and the link of the old one. */
  lemma LinkWrites(s: Server, k: nat)
    requires Inv(s) && Enabled(s, Link(k))
    ensures var n, x, p := DoLink(s, k), s.ws[k], s.ws[k].pc.p;
      && s.ds[p].at == With(k) && n.ds.Keys == s.ds.Keys
      && n.ds[p] == s.ds[p].(at := Queued(k)) && n.ds[p].next == None
      && (forall u :: u in s.ds && u != p ==> n.ds[u] == if x.q0 == Some(u) then s.ds[u].(next := Some(p)) else s.ds[u])
      && n.ws == s.ws[k := x.(pc := Top, q0 := Some(p), q1 := if x.q == [] then Some(p) else x.q1, q := x.q + [p])]
  {
    assert QueueOk(s.ds, k, s.ws[k]) && PcOk(s.ds, k, s.ws[k].pc);
    assert DescOk(s.ws, s.ws[k].pc.p, s.ds[s.ws[k].pc.p]);
    var q := s.ws[k].q;
    assert q != [] ==> LinkedAt(s.ds, k, q[|q| - 1], After(q, |q| - 1));
  }

  lemma QueueAppend(ds: map<Pd, Desc>, es: map<Pd, Desc>, k: nat, x: Worker, y: Worker, p: Pd)
    requires QueueOk(ds, k, x) && p in ds && ds[p].at == With(k)
    requires y.q == x.q + [p] && y.q0 == Some(p) && y.q1 == if x.q == [] then Some(p) else x.q1
    requires LinkedAt(es, k, p, None)
    requires forall u :: u in ds && u != p ==>
      u in es && es[u] == if x.q0 == Some(u) then ds[u].(next := Some(p)) else ds[u]
    ensures QueueOk(es, k, y)
  {
    var q, t := x.q, y.q;
    forall i | 0 <= i < |q| ensures LinkedAt(es, k, t[i], After(t, i)) && q[i] != p {
      assert LinkedAt(ds, k, q[i], After(q, i));
    }
  }

  lemma LinkedQueues(s: Server, k: nat)
    requires Inv(s) && Enabled(s, Link(k))
    ensures QueuesOk(DoLink(s, k))
  {
    LinkWrites(s, k);
    var n := DoLink(s, k);
    var q := s.ws[k].q;
    assert QueueOk(s.ds, k, s.ws[k]);
    assert q != [] ==> LinkedAt(s.ds, k, q[|q| - 1], After(q, |q| - 1));
    hide Enabled, DoLink, DescsOk, ChansOk, PcsOk, QueueOk;
    QueueAppend(s.ds, n.ds, k, s.ws[k], n.ws[k], s.ws[k].pc.p);
    forall j | 0 <= j < |n.ws| ensures QueueOk(n.ds, j, n.ws[j]) {
      assert QueueOk(s.ds, j, s.ws[j]);
      if j != k { QueueFrame(s.ds, n.ds, j, s.ws[j], n.ws[j]); }
    }
  }

  lemma PcMoves(ds: map<Pd, Desc>, es: map<Pd, Desc>, j: nat, pc: Pc)
    requires PcOk(ds, j, pc) && es.Keys == ds.Keys
    requires Used(pc).Some? ==> pc.p in es && es[pc.p].at == ds[pc.p].at
    ensures PcOk(es, j, pc)
  {
  }

  lemma LinkedPcs(s: Server, k: nat)
    requires Inv(s) && Enabled(s, Link(k))
    ensures PcsOk(DoLink(s, k))
  {
    hide Inv, DoLink, PcOk;
    LinkWrites(s, k);
    var n := DoLink(s, k);
    forall j | 0 <= j < |n.ws| ensures PcOk(n.ds, j, n.ws[j].pc) {
      HoldOf(s, j, s.ws[k].pc.p);
      if j == k { TopOk(n.ds, k); } else { LinkedOtherPc(s, n.ds, k, j); }
    }
  }

  lemma TopOk(ds: map<Pd, Desc>, k: nat)
    ensures PcOk(ds, k, Top)
  {
  }

  lemma LinkedOtherPc(s: Server, es: map<Pd, Desc>, k: nat, j: nat)
    requires k < |s.ws| && j < |s.ws| && j != k && PcOk(s.ds, j, s.ws[j].pc) && s.ws[k].pc.Append?
    requires es.Keys == s.ds.Keys && s.ws[k].pc.p in s.ds && s.ds[s.ws[k].pc.p].at == With(k)
    requires forall u :: u in s.ds && u != s.ws[k].pc.p ==> es[u].at == s.ds[u].at
    ensures PcOk(es, j, s.ws[j].pc)
  {
    PcMoves(s.ds, es, j, s.ws[j].pc);
  }

  lemma LinkedDescs(s: Server, k: nat)
    requires Inv(s) && Enabled(s, Link(k))
    ensures DescsOk(DoLink(s, k))
  {
    LinkWrites(s, k);
    var n, p, q := DoLink(s, k), s.ws[k].pc.p, s.ws[k].q;
    assert QueueOk(s.ds, k, s.ws[k]);
    assert q != [] ==> LinkedAt(s.ds, k, q[|q| - 1], After(q, |q| - 1));
    hide Enabled, DoLink, ChansOk, QueuesOk, PcsOk, QueueOk;
    assert n.ws[k].q[|q|] == p;
    forall u | u in n.ds ensures DescOk(n.ws, u, n.ds[u]) {
      assert DescOk(s.ws, u, s.ds[u]);
      if u != p {
        LinkedOther(s.ws, k, n.ws[k], u, s.ds[u], n.ds[u]);
      }
    }
  }

  lemma LinkedOther(ws: seq<Worker>, k: nat, x: Worker, u: Pd, d: Desc, e: Desc)
    requires k < |ws| && DescOk(ws, u, d) && Used(ws[k].pc).Some? && Used(ws[k].pc) != Some(u)
    requires e == d || (d.at.Queued? && e == d.(next := e.next))
    requires forall v :: v in ws[k].q ==> v in x.q
    ensures DescOk(ws[k := x], u, e)
  {
  }

  lemma StepKeeps(s: Server, e: Event)
    requires Inv(s) && Enabled(s, e)
    ensures Inv(Apply(s, e))
  {
    if Passive(s, e) {
      hide Inv, Apply, Enabled, Passive;
      PassiveHolds(s, e);
      PassiveChans(s, e);
      FrameKeeps(s, Apply(s, e));
    } else if e.TakeLocal? {
      TakenWorkers(s, e.k);
      TakenDescs(s, e.k);
      hide DescsOk, QueuesOk, PcsOk;
    } else if e.Link? {
      LinkedQueues(s, e.k);
      LinkedPcs(s, e.k);
      LinkedDescs(s, e.k);
      hide DescsOk, QueuesOk, PcsOk;
    } else {
      OwnerKeeps(s, e);
    }
  }
}
