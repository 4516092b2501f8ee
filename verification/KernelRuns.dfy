/**
 Safety of message passing and scheduling over whole runs. A world is a kernel
 state with the history of what was sent and received; the invariant is proved
 to hold in every world that any sequence of kernel operations leads to.
 */
module KernelRuns {
  import opened KernelSteps

  /** Not received yet, or received as the delivery with this number. */
  datatype Fate = Waiting | Taken(at: nat)

  /** A message that do_send accepted. */
  datatype Entry = Entry(src: int, dst: int, m: Message, fate: Fate)

  /** A message that was copied to a receiver on behalf of an accepted send. */
  datatype Delivery = Delivery(id: nat, dst: int, m: Message)

  /**
   pending: the entry that each blocked sender waits with.
   replies: the processes that wait for the reply of a SENDREC.
   */
  datatype World = World(k: Kernel, log: seq<Entry>, pending: map<int, nat>, got: seq<Delivery>, replies: set<int>)

  // ----- operations -----

  datatype Op =
    | Send(dest: int, m: Message)
    | SendRec(dest: int, m: Message)
    | Receive(m: Message)
    | Notify(dest: int, m: Message)
    | Unknown

  datatype Event =
    | Syscall(op: Op, direct: bool)
    | Reply(dest: int, m: Message)
    | Tick
    | Rebalance

  /** The history of a send that succeeded: the message is at its receiver or waits. */
  function Record(w: World, k': Kernel, c: int, d: int, m: Message, delivered: bool): World
    requires 0 <= d < |k'.ps|
  {
    var id := |w.log|;
    if delivered then
      World(k', w.log + [Entry(c, d, m, Taken(|w.got|))], w.pending,
            w.got + [Delivery(id, d, k'.ps[d].msg)], w.replies - {d})
    else
      World(k', w.log + [Entry(c, d, m, Waiting)], w.pending[c := id], w.got, w.replies)
  }

  /** WINIX_SEND and WINIX_SENDREC by process c; the failing branch undoes the receiving bit. */
  function SendOp(w: World, c: int, dest: int, m: Message, rec: bool): (r: (World, int))
    requires Shape(w.k) && 0 <= c < NPROC
  {
    var k0 := if rec then SetState(w.k, c, w.k.ps[c].state.(receiving := true)) else w.k;
    var o := DoSend(k0, c, dest, m);
    if o.ret < 0 then (w.(k := SetState(o.k, c, o.k.ps[c].state.(receiving := false))), o.ret)
    else
      var d := GetProc(k0, dest);
      var w1 := Record(w, o.k, c, d, m, k0.ps[d].state == RECEIVING);
      (if rec then w1.(replies := w1.replies + {c}) else w1, 0)
  }

  function ReceiveOp(w: World, m: Message): World
    requires Shape(w.k) && 0 <= w.k.cur < NPROC
    requires w.k.sq[w.k.cur] != [] ==> 0 <= w.k.sq[w.k.cur][0] < NPROC
  {
    var c, k' := w.k.cur, DoReceive(w.k, m);
    if w.k.sq[c] == [] then w.(k := k')
    else
      var p := w.k.sq[c][0];
      if p in w.pending && w.pending[p] < |w.log| then
        var id := w.pending[p];
        World(k', w.log[id := w.log[id].(fate := Taken(|w.got|))], w.pending - {p},
              w.got + [Delivery(id, c, k'.ps[c].msg)], w.replies)
      else w.(k := k')
  }

  function NotifyOp(w: World, src: int, dest: int, m: Message): (r: (World, int))
    requires Shape(w.k) && 0 <= src < NPROC
  {
    var o := DoNotify(w.k, src, dest, m);
    var d := GetProc(w.k, dest);
    (w.(k := o.k, replies := if d != NULL && w.k.ps[d].state == RECEIVING then w.replies - {d} else w.replies), o.ret)
  }

  /** The switch of syscall_handler; the kernel fills in the source of the message. */
  function Perform(w: World, op: Op): (r: (World, int))
    requires Shape(w.k) && 0 <= w.k.cur < NPROC
    requires w.k.sq[w.k.cur] != [] ==> 0 <= w.k.sq[w.k.cur][0] < NPROC
  {
    var c := w.k.cur;
    match op
    case Send(dest, m) => SendOp(w, c, dest, m.(src := c - SYSTEM), false)
    case SendRec(dest, m) => SendOp(w, c, dest, m.(src := c - SYSTEM), true)
    case Receive(m) => (ReceiveOp(w, m.(src := c - SYSTEM)), 0)
    case Notify(dest, m) => NotifyOp(w, c, dest, m.(src := c - SYSTEM))
    case Unknown => (w, -EINVAL)
  }

  function SetResult(w: World, c: int, ret: int): World
    requires 0 <= c < |w.k.ps|
  {
    w.(k := SetProc(w.k, c, w.k.ps[c].(reg0 := ret)))
  }

  function OneTick(k: Kernel): Kernel
    requires 0 <= k.cur < |k.ps|
  {
    SetProc(k, k.cur, k.ps[k.cur].(ticksLeft := k.ps[k.cur].ticksLeft - 1))
  }

  /** rebalance_queues: every user slot in use gets the default priority; the queues stay as they are. */
  function Rebalanced(k: Kernel): Kernel
    requires |k.ps| == NPROC
  {
    k.(ps := seq(NPROC, p requires 0 <= p < NPROC =>
                   if p >= INIT && k.ps[p].inUse then k.ps[p].(priority := DEFAULT_PRIORITY) else k.ps[p]))
  }

  // ----- the invariant -----

  /** A process is in exactly one ready queue, once, if it can run and is not running; otherwise in none. */
  ghost predicate ReadyOk(k: Kernel)
    requires |k.ps| == NPROC
  {
    forall p :: All(k.rq)[p] == if Ready(k, p) && p != k.cur then 1 else 0
  }

  /** A process is in exactly one queue of senders, once, if its sending bit is set; otherwise in none. */
  ghost predicate SendersOk(k: Kernel)
    requires |k.ps| == NPROC
  {
    forall p :: All(k.sq)[p] == if Sending(k, p) then 1 else 0
  }

  /** No two processes wait to send to each other, and none to itself. */
  ghost predicate NoMutualSend(k: Kernel)
    requires |k.sq| == NPROC
  {
    forall p, d :: 0 <= p < NPROC && 0 <= d < NPROC && p in k.sq[d] ==> d !in k.sq[p]
  }

  ghost predicate Safe(k: Kernel) {
    && Shape(k) && ReadyOk(k) && SendersOk(k) && NoMutualSend(k)
    && Ready(k, IDLE)
  }

  /** Each accepted message waits unaltered with its sender, or was received once, unaltered, where it was sent. */
  ghost predicate HistoryOk(w: World)
    requires Shape(w.k)
  {
    && (forall i :: 0 <= i < |w.got| ==> DeliveryOk(w, i))
    && (forall id :: 0 <= id < |w.log| ==> EntryOk(w, id))
    && (forall p :: p in w.pending ==> PendingOk(w, p))
    && (forall p :: p in w.pending <==> Sending(w.k, p))
  }

  ghost predicate DeliveryOk(w: World, i: nat)
    requires i < |w.got|
  {
    var g := w.got[i];
    g.id < |w.log| && w.log[g.id].fate == Taken(i) && w.log[g.id].dst == g.dst && w.log[g.id].m == g.m
  }

  ghost predicate EntryOk(w: World, id: nat)
    requires id < |w.log|
  {
    var e := w.log[id];
    match e.fate
    case Taken(i) => i < |w.got| && w.got[i].id == id
    case Waiting => e.src in w.pending && w.pending[e.src] == id
  }

  ghost predicate PendingOk(w: World, p: int)
    requires Shape(w.k) && p in w.pending
  {
    var id := w.pending[p];
    && 0 <= p < NPROC && id < |w.log|
    && var e := w.log[id];
       && e.fate == Waiting && e.src == p && e.m == w.k.ps[p].msg
       && 0 <= e.dst < NPROC && p in w.k.sq[e.dst]
  }

  /**
   A process that is blocked in nothing but a receive, and not for a reply, has
   no senders waiting. The system task never waits for a reply.
   */
  ghost predicate WaitsOk(w: World)
    requires Shape(w.k)
  {
    && SYSTEM !in w.replies
    && (forall p :: p in w.replies ==> 0 <= p < NPROC && w.k.ps[p].state.receiving)
    && (forall p :: Sending(w.k, p) && w.k.ps[p].state.receiving ==> p in w.replies)
    && (forall p :: InUse(w.k, p) && w.k.ps[p].state == RECEIVING && p !in w.replies ==> w.k.sq[p] == [])
  }

  ghost predicate WorldOk(w: World) {
    Safe(w.k) && HistoryOk(w) && WaitsOk(w)
  }

  /** Between operations some runnable process is running. */
  ghost predicate Inv(w: World) {
    WorldOk(w) && Ready(w.k, w.k.cur)
  }

  // ----- facts about queues of senders -----

  lemma SenderKnown(k: Kernel, d: int, p: int)
    requires Safe(k) && 0 <= d < NPROC && p in k.sq[d]
    ensures Sending(k, p) && p !in k.sq[p]
  {
    AllHolds(k.sq, d, p);
  }

  /** A blocked sender is in one queue only. */
  lemma OneQueue(k: Kernel, d: int, e: int, p: int)
    requires Safe(k) && 0 <= d < NPROC && 0 <= e < NPROC && p in k.sq[d] && p in k.sq[e]
    ensures d == e
  {
    if d != e {
      AllUpdate(k.sq, d, []);
      AllHolds(k.sq[d := []], e, p);
      assert false;
    }
  }

  // ----- every kernel step keeps the kernel safe -----

  /** Changing what the queues do not depend on. */
  lemma Touch(k: Kernel, p: int, x: Proc)
    requires Safe(k) && 0 <= p < NPROC && x.priority < NUM_QUEUES
    requires x.inUse == k.ps[p].inUse && x.state.sending == k.ps[p].state.sending
    requires p == k.cur || (x.state == RUNNABLE <==> k.ps[p].state == RUNNABLE)
    requires p == IDLE ==> x.state == RUNNABLE
    ensures Safe(SetProc(k, p, x))
  {
  }

  lemma DeliverSafe(k: Kernel, d: int, m: Message, reply: int)
    requires Safe(k) && InUse(k, d) && k.ps[d].state == RECEIVING && d != k.cur
    ensures Safe(Deliver(k, d, m, reply))
  {
    hide All;
    AllPush(k.rq, k.ps[d].priority, d);
  }

  lemma BlockSafe(k: Kernel, c: int, d: int)
    requires Safe(k) && c == k.cur && InUse(k, c) && !k.ps[c].state.sending && c != IDLE
    requires 0 <= d < NPROC && d != c && d !in k.sq[c]
    ensures Safe(Block(k, c, d))
  {
    hide All;
    hide NoMutualSend;
    BlockMutual(k, c, d);
    AllPush(k.sq, d, c);
  }

  lemma BlockMutual(k: Kernel, c: int, d: int)
    requires Safe(k) && 0 <= c < NPROC && !k.ps[c].state.sending
    requires 0 <= d < NPROC && d != c && d !in k.sq[c]
    ensures NoMutualSend(Block(k, c, d))
  {
  }

  lemma AcceptSafe(k: Kernel)
    requires Safe(k) && Ready(k, k.cur) && k.sq[k.cur] != []
    ensures 0 <= k.sq[k.cur][0] < NPROC && Safe(Accept(k, k.cur))
  {
    SenderKnown(k, k.cur, k.sq[k.cur][0]);
    AcceptReady(k);
    AcceptSenders(k);
    AcceptRest(k);
  }

  lemma AcceptRest(k: Kernel)
    requires Safe(k) && Ready(k, k.cur) && k.sq[k.cur] != [] && 0 <= k.sq[k.cur][0] < NPROC
    ensures var k' := Accept(k, k.cur); Shape(k') && NoMutualSend(k') && Ready(k', IDLE)
  {
  }

  lemma AcceptReady(k: Kernel)
    requires Safe(k) && Ready(k, k.cur) && k.sq[k.cur] != [] && 0 <= k.sq[k.cur][0] < NPROC
    requires k.sq[k.cur][0] != k.cur && Sending(k, k.sq[k.cur][0])
    ensures ReadyOk(Accept(k, k.cur))
  {
    hide All;
    hide SendersOk;
    hide NoMutualSend;
    var p := k.sq[k.cur][0];
    AllPush(k.rq, k.ps[p].priority, p);
  }

  lemma AcceptSenders(k: Kernel)
    requires Safe(k) && Ready(k, k.cur) && k.sq[k.cur] != [] && 0 <= k.sq[k.cur][0] < NPROC
    requires k.sq[k.cur][0] != k.cur && Sending(k, k.sq[k.cur][0])
    ensures SendersOk(Accept(k, k.cur))
  {
    hide All;
    hide ReadyOk;
    hide NoMutualSend;
    AllPop(k.sq, k.cur);
    var k' := Accept(k, k.cur);
    assert k'.sq == k.sq[k.cur := k.sq[k.cur][1..]];
  }

  // ----- scheduling -----

  lemma RequeueRq(k: Kernel)
    requires Shape(k)
    ensures var k' := Requeue(k);
            All(k'.rq) == if k.cur != NULL && k.ps[k.cur].state == RUNNABLE then All(k.rq) + multiset{k.cur}
            else All(k.rq)
  {
    hide All;
    if k.cur != NULL {
      var q := k.ps[k.cur].priority;
      AllPush(k.rq, q, k.cur);
      if q > 0 {
        AllPush(k.rq, q - 1, k.cur);
      }
    }
  }

  lemma RequeueRest(k: Kernel)
    requires Safe(k)
    ensures var k' := Requeue(k);
            && Shape(k') && k'.sq == k.sq && k'.cur == k.cur
            && forall p :: 0 <= p < NPROC ==> k'.ps[p].inUse == k.ps[p].inUse && k'.ps[p].state == k.ps[p].state
  {
  }

  lemma RequeueAll(k: Kernel)
    requires Safe(k) && (k.cur == NULL || InUse(k, k.cur))
    ensures var k' := Requeue(k);
            && Shape(k') && SendersOk(k') && NoMutualSend(k') && Ready(k', IDLE)
            && forall p :: All(k'.rq)[p] == if Ready(k', p) then 1 else 0
  {
    RequeueRq(k);
    RequeueRest(k);
  }

  /** There is always something to dispatch, because IDLE never blocks. */
  lemma SomethingReady(rq: seq<seq<int>>)
    requires |rq| == NUM_QUEUES && IDLE in All(rq)
    ensures Highest(rq, MAX_PRIORITY) != NULL
  {
    var i := AllFind(rq, IDLE);
  }

  /** What sched does: put the running process back and run the head of the highest queue that is not empty. */
  lemma SchedSafe(k: Kernel)
    requires Safe(k) && (k.cur == NULL || InUse(k, k.cur))
    ensures var k1 := Requeue(k); var q := Highest(k1.rq, MAX_PRIORITY);
            && Shape(k1) && q != NULL && Ready(k1, k1.rq[q][0])
            && Safe(Dispatch(k1)) && Ready(Dispatch(k1), Dispatch(k1).cur)
  {
    hide Requeue;
    RequeueAll(k);
    DispatchSafe(Requeue(k));
  }

  lemma DispatchSafe(k: Kernel)
    requires Shape(k) && SendersOk(k) && NoMutualSend(k) && Ready(k, IDLE)
    requires forall p :: All(k.rq)[p] == if Ready(k, p) then 1 else 0
    ensures var q := Highest(k.rq, MAX_PRIORITY);
            && q != NULL && Ready(k, k.rq[q][0])
            && Safe(Dispatch(k)) && Ready(Dispatch(k), Dispatch(k).cur)
  {
    hide All;
    SomethingReady(k.rq);
    var q := Highest(k.rq, MAX_PRIORITY);
    AllPop(k.rq, q);
  }

  // ----- every operation keeps the invariant -----

  /** The history depends on the kernel only through its blocked senders. */
  lemma HistoryKept(w: World, k': Kernel, replies': set<int>)
    requires Shape(w.k) && Shape(k') && HistoryOk(w) && k'.sq == w.k.sq
    requires forall p :: Sending(k', p) <==> Sending(w.k, p)
    requires forall p :: Sending(w.k, p) ==> k'.ps[p].msg == w.k.ps[p].msg
    ensures HistoryOk(w.(k := k', replies := replies'))
  {
    hide Shape;
    var w' := w.(k := k', replies := replies');
    forall p | p in w'.pending ensures PendingOk(w', p) {
      assert PendingOk(w, p);
    }
    forall i | 0 <= i < |w'.got| ensures DeliveryOk(w', i) {
      assert DeliveryOk(w, i);
    }
    forall id | 0 <= id < |w'.log| ensures EntryOk(w', id) {
      assert EntryOk(w, id);
    }
  }

  lemma TouchWorld(w: World, c: int, x: Proc)
    requires WorldOk(w) && InUse(w.k, c) && !w.k.ps[c].state.sending
    requires x.inUse && !x.state.sending && x.priority < NUM_QUEUES
    requires c == w.k.cur || (x.state == RUNNABLE <==> w.k.ps[c].state == RUNNABLE)
    requires c == IDLE ==> x.state == RUNNABLE
    requires x.state.receiving == w.k.ps[c].state.receiving
    requires x.state == RECEIVING <==> w.k.ps[c].state == RECEIVING
    ensures WorldOk(w.(k := SetProc(w.k, c, x)))
  {
    hide HistoryOk;
    hide ReadyOk;
    hide SendersOk;
    hide NoMutualSend;
    Touch(w.k, c, x);
    HistoryKept(w, SetProc(w.k, c, x), w.replies);
  }

  /** What is delivered to a waiting process goes to one that is not sending. */
  lemma DeliverWorld(w: World, d: int, m: Message, reply: int)
    requires WorldOk(w) && InUse(w.k, d) && w.k.ps[d].state == RECEIVING && d != w.k.cur
    ensures WorldOk(w.(k := Deliver(w.k, d, m, reply), replies := w.replies - {d}))
  {
    hide HistoryOk;
    hide ReadyOk;
    hide SendersOk;
    hide NoMutualSend;
    DeliverSafe(w.k, d, m, reply);
    HistoryKept(w, Deliver(w.k, d, m, reply), w.replies - {d});
  }

  /** Recording a message that was delivered on the spot. */
  lemma RecordDelivered(w: World, c: int, d: int, m: Message)
    requires WorldOk(w) && 0 <= d < NPROC && w.k.ps[d].msg == m
    ensures WorldOk(w.(log := w.log + [Entry(c, d, m, Taken(|w.got|))], got := w.got + [Delivery(|w.log|, d, m)]))
  {
    hide ReadyOk;
    hide SendersOk;
    hide NoMutualSend;
    var w' := w.(log := w.log + [Entry(c, d, m, Taken(|w.got|))], got := w.got + [Delivery(|w.log|, d, m)]);
    forall p | p in w'.pending ensures PendingOk(w', p) {
      assert PendingOk(w, p);
    }
    forall i | 0 <= i < |w'.got| ensures DeliveryOk(w', i) {
      if i < |w.got| {
        assert DeliveryOk(w, i);
      }
    }
    forall id | 0 <= id < |w'.log| ensures EntryOk(w', id) {
      if id < |w.log| {
        assert EntryOk(w, id);
      }
    }
  }

  function Blocked(w: World, c: int, d: int): World
    requires Shape(w.k) && 0 <= c < NPROC && 0 <= d < NPROC
  {
    World(Block(w.k, c, d), w.log + [Entry(c, d, w.k.ps[c].msg, Waiting)], w.pending[c := |w.log|], w.got, w.replies)
  }

  lemma BlockedHistory(w: World, c: int, d: int)
    requires Shape(w.k) && HistoryOk(w) && InUse(w.k, c) && !w.k.ps[c].state.sending && 0 <= d < NPROC
    ensures Shape(Blocked(w, c, d).k) && HistoryOk(Blocked(w, c, d))
  {
    var w' := Blocked(w, c, d);
    assert Shape(w'.k);
    assert c !in w.pending;
    forall p | p in w'.pending ensures PendingOk(w', p) {
      if p != c {
        assert PendingOk(w, p);
      }
    }
    forall i | 0 <= i < |w'.got| ensures DeliveryOk(w', i) {
      assert DeliveryOk(w, i);
    }
    forall id | 0 <= id < |w'.log| ensures EntryOk(w', id) {
      if id < |w.log| {
        assert EntryOk(w, id);
      }
    }
  }

  /** Recording a message whose sender is blocked. */
  lemma BlockWorld(w: World, c: int, d: int)
    requires WorldOk(w) && c == w.k.cur && InUse(w.k, c) && !w.k.ps[c].state.sending && c != IDLE
    requires 0 <= d < NPROC && d != c && d !in w.k.sq[c] && w.k.ps[d].state != RECEIVING
    requires w.k.ps[c].state.receiving ==> c in w.replies
    ensures WorldOk(Blocked(w, c, d))
  {
    hide HistoryOk;
    hide ReadyOk;
    hide SendersOk;
    hide NoMutualSend;
    BlockSafe(w.k, c, d);
    BlockedHistory(w, c, d);
  }

  /** A process that goes on to wait for a reply. */
  function Awaiting(w: World, c: int): World
    requires 0 <= c < |w.k.ps|
  {
    w.(k := SetState(w.k, c, w.k.ps[c].state.(receiving := true)), replies := w.replies + {c})
  }

  lemma AwaitingOk(w: World)
    requires Inv(w) && w.k.cur != IDLE && w.k.cur != SYSTEM
    ensures WorldOk(Awaiting(w, w.k.cur))
  {
    hide HistoryOk;
    hide ReadyOk;
    hide SendersOk;
    hide NoMutualSend;
    var c := w.k.cur;
    var x := w.k.ps[c].(state := RECEIVING);
    Touch(w.k, c, x);
    HistoryKept(w, SetProc(w.k, c, x), w.replies + {c});
  }

  /** The operation once the message is in place and the receiving bit is set if need be. */
  function Sent(w: World, d: int): World
    requires Shape(w.k) && 0 <= w.k.cur < NPROC && 0 <= d < NPROC
  {
    var c := w.k.cur;
    var m := w.k.ps[c].msg;
    if w.k.ps[d].state == RECEIVING then Record(w, Deliver(w.k, d, m, m.kind), c, d, m, true)
    else Blocked(w, c, d)
  }

  lemma SentOk(w: World, d: int)
    requires WorldOk(w) && InUse(w.k, w.k.cur) && w.k.cur != IDLE && InUse(w.k, d) && d != w.k.cur
    requires !w.k.ps[w.k.cur].state.sending && (w.k.ps[w.k.cur].state.receiving ==> w.k.cur in w.replies)
    requires !(w.k.ps[d].state.sending && d in w.k.sq[w.k.cur])
    ensures WorldOk(Sent(w, d)) && Sent(w, d).k.cur == w.k.cur
  {
    var c := w.k.cur;
    var m := w.k.ps[c].msg;
    if w.k.ps[d].state == RECEIVING {
      DeliverWorld(w, d, m, m.kind);
      RecordDelivered(w.(k := Deliver(w.k, d, m, m.kind), replies := w.replies - {d}), c, d, m);
    } else {
      if d in w.k.sq[c] {
        SenderKnown(w.k, c, d);
      }
      BlockWorld(w, c, d);
    }
  }

  /** SEND and SENDREC; a process must not send to itself, and the system task does not wait for replies. */
  lemma SendOpOk(w: World, dest: int, m: Message, rec: bool)
    requires Inv(w) && w.k.cur != IDLE && (rec ==> w.k.cur != SYSTEM) && GetProc(w.k, dest) != w.k.cur
    ensures var r := SendOp(w, w.k.cur, dest, m, rec);
            WorldOk(r.0) && r.0.k.cur == w.k.cur && InUse(r.0.k, r.0.k.cur)
  {
    hide WorldOk;
    Prepared(w, m, rec);
    SendOpForm(w, dest, m, rec);
    var c, d, w1 := w.k.cur, GetProc(w.k, dest), Prepare(w, m, rec);
    if d == NULL || (w1.k.ps[d].state.sending && d in w1.k.sq[c]) {
      Prepared(w, m, false);
    } else {
      SentOk(w1, d);
    }
  }

  /** The message is in place, and the sender waits for a reply if it is to. */
  function Prepare(w: World, m: Message, rec: bool): World
    requires Shape(w.k) && 0 <= w.k.cur < NPROC
  {
    var w0 := if rec then Awaiting(w, w.k.cur) else w;
    w0.(k := SetMsg(w0.k, w0.k.cur, m))
  }

  lemma Prepared(w: World, m: Message, rec: bool)
    requires Inv(w) && w.k.cur != IDLE && (rec ==> w.k.cur != SYSTEM)
    ensures Shape(w.k) && Ready(w.k, w.k.cur)
    ensures var w1 := Prepare(w, m, rec); var x := w1.k.ps[w.k.cur];
            && WorldOk(w1) && w1.k.cur == w.k.cur && x.inUse && !x.state.sending
               && (x.state.receiving ==> w.k.cur in w1.replies)
  {
    hide Safe;
    hide HistoryOk;
    SafeShape(w);
    var w0 := if rec then Awaiting(w, w.k.cur) else w;
    if rec {
      AwaitingOk(w);
    }
    TouchWorld(w0, w0.k.cur, w0.k.ps[w0.k.cur].(msg := m));
  }

  lemma SafeShape(w: World)
    requires WorldOk(w)
    ensures Shape(w.k)
  {
  }

  lemma SendOpForm(w: World, dest: int, m: Message, rec: bool)
    requires Shape(w.k) && 0 <= w.k.cur < NPROC && w.k.ps[w.k.cur].state == RUNNABLE && GetProc(w.k, dest) != w.k.cur
    ensures var c, d, w1 := w.k.cur, GetProc(w.k, dest), Prepare(w, m, rec);
            && (d != NULL ==> InUse(w1.k, d))
            && SendOp(w, c, dest, m, rec).0 ==
               if d == NULL || (w1.k.ps[d].state.sending && d in w1.k.sq[c]) then Prepare(w, m, false) else Sent(w1, d)
  {
    var c, d, w1 := w.k.cur, GetProc(w.k, dest), Prepare(w, m, rec);
    var x := w.k.ps[c].(msg := m);
    assert w.k.ps[c := x] == w1.k.ps[c := x];
    if d != NULL && rec {
      assert (w.replies - {d}) + {c} == (w.replies + {c}) - {d};
    }
  }

  // ----- receiving -----

  /** The first sender of c is the one whose entry names c. */
  lemma FirstSender(w: World, c: int)
    requires WorldOk(w) && 0 <= c < NPROC && w.k.sq[c] != []
    ensures var p := w.k.sq[c][0];
            && Sending(w.k, p) && p != c && p in w.pending && PendingOk(w, p) && w.log[w.pending[p]].dst == c
  {
    var p := w.k.sq[c][0];
    SenderKnown(w.k, c, p);
    assert PendingOk(w, p);
    OneQueue(w.k, c, w.log[w.pending[p]].dst, p);
  }

  /** The record of a message that its receiver took from the queue. */
  function Accepted(w: World, c: int): World
    requires Shape(w.k) && 0 <= c < NPROC && w.k.sq[c] != [] && 0 <= w.k.sq[c][0] < NPROC
    requires w.k.sq[c][0] in w.pending && w.pending[w.k.sq[c][0]] < |w.log|
  {
    var p := w.k.sq[c][0];
    var id := w.pending[p];
    World(Accept(w.k, c), w.log[id := w.log[id].(fate := Taken(|w.got|))], w.pending - {p},
          w.got + [Delivery(id, c, w.k.ps[p].msg)], w.replies)
  }

  lemma AcceptFacts(k: Kernel, c: int)
    requires Shape(k) && 0 <= c < NPROC && k.sq[c] != [] && 0 <= k.sq[c][0] < NPROC && k.sq[c][0] != c
    ensures var p := k.sq[c][0]; var k' := Accept(k, c);
            && |k'.ps| == NPROC && k'.cur == k.cur
            && k'.sq == k.sq[c := k.sq[c][1..]]
            && k'.ps[p] == k.ps[p].(state := k.ps[p].state.(sending := false))
            && k'.ps[c] == k.ps[c].(msg := k.ps[p].msg)
            && forall q :: 0 <= q < NPROC && q != p && q != c ==> k'.ps[q] == k.ps[q]
  {
  }

  lemma AcceptedHistory(w: World)
    requires Inv(w) && w.k.sq[w.k.cur] != []
    requires var p := w.k.sq[w.k.cur][0];
             && Sending(w.k, p) && p != w.k.cur && p in w.pending && PendingOk(w, p)
                && w.log[w.pending[p]].dst == w.k.cur
    requires Shape(Accept(w.k, w.k.cur))
    ensures HistoryOk(Accepted(w, w.k.cur))
  {
    hide Accept;
    hide ReadyOk;
    hide SendersOk;
    hide NoMutualSend;
    hide WaitsOk;
    var c := w.k.cur;
    var p := w.k.sq[c][0];
    var w' := Accepted(w, c);
    AcceptFacts(w.k, c);
    forall q | q in w'.pending ensures PendingOk(w', q) {
      assert PendingOk(w, q);
      assert w.k.sq[c] == [p] + w.k.sq[c][1..];
    }
    forall i | 0 <= i < |w'.got| ensures DeliveryOk(w', i) {
      if i < |w.got| {
        assert DeliveryOk(w, i);
      }
    }
    forall id | 0 <= id < |w'.log| ensures EntryOk(w', id) {
      assert EntryOk(w, id);
    }
  }

  lemma AcceptedOk(w: World)
    requires Inv(w) && w.k.sq[w.k.cur] != []
    ensures var p := w.k.sq[w.k.cur][0];
            && 0 <= p < NPROC && p in w.pending && w.pending[p] < |w.log|
            && WorldOk(Accepted(w, w.k.cur)) && Accepted(w, w.k.cur).k.cur == w.k.cur
            && Ready(Accepted(w, w.k.cur).k, w.k.cur)
  {
    hide Accept;
    hide HistoryOk;
    hide ReadyOk;
    hide SendersOk;
    hide NoMutualSend;
    var c := w.k.cur;
    var p := w.k.sq[c][0];
    FirstSender(w, c);
    AcceptSafe(w.k);
    AcceptFacts(w.k, c);
    AcceptedHistory(w);
  }

  /** With nobody in its queue the receiver waits. */
  lemma WaitingOk(w: World, m: Message)
    requires Inv(w) && w.k.cur != IDLE && w.k.sq[w.k.cur] == []
    ensures var c := w.k.cur; var k' := SetProc(w.k, c, w.k.ps[c].(msg := m, state := RECEIVING));
            DoReceive(w.k, m) == k' && WorldOk(w.(k := k'))
  {
    hide HistoryOk;
    hide ReadyOk;
    hide SendersOk;
    hide NoMutualSend;
    var c := w.k.cur;
    var x := w.k.ps[c].(msg := m, state := RECEIVING);
    Touch(w.k, c, x);
    HistoryKept(w, SetProc(w.k, c, x), w.replies);
  }

  lemma ReceiveOpOk(w: World, m: Message)
    requires Inv(w) && w.k.cur != IDLE
    ensures w.k.sq[w.k.cur] != [] ==> 0 <= w.k.sq[w.k.cur][0] < NPROC
    ensures var w' := ReceiveOp(w, m); WorldOk(w') && w'.k.cur == w.k.cur && InUse(w'.k, w'.k.cur)
  {
    hide HistoryOk;
    hide WaitsOk;
    hide ReadyOk;
    hide SendersOk;
    hide NoMutualSend;
    hide Accept;
    var c := w.k.cur;
    if w.k.sq[c] != [] {
      AcceptedOk(w);
      FirstSender(w, c);
      AcceptFacts(w.k, c);
      assert ReceiveOp(w, m) == Accepted(w, c);
    } else {
      WaitingOk(w, m);
    }
  }

  // ----- notifying -----

  lemma NotifyOpOk(w: World, src: int, dest: int, m: Message)
    requires Inv(w) && Ready(w.k, src)
    ensures var r := NotifyOp(w, src, dest, m);
            WorldOk(r.0) && r.0.k.cur == w.k.cur && Ready(r.0.k, w.k.cur)
  {
    var d := GetProc(w.k, dest);
    if d != NULL && w.k.ps[d].state == RECEIVING {
      DeliverWorld(w, d, m, ReplyValue(m));
    } else if d != NULL && !w.k.ps[d].state.zombie && w.k.ps[src].user {
      TouchWorld(w, src, w.k.ps[src].(msg := m));
    }
  }

  // ----- whole runs -----

  function Sched(k: Kernel): Kernel
    requires Shape(k) && Shape(Requeue(k))
    requires var rq := Requeue(k).rq; var q := Highest(rq, MAX_PRIORITY); q != NULL && 0 <= rq[q][0] < NPROC
  {
    Dispatch(Requeue(k))
  }

  lemma SchedWorld(w: World)
    requires WorldOk(w) && (w.k.cur == NULL || InUse(w.k, w.k.cur))
    ensures Shape(w.k) && Shape(Requeue(w.k))
    ensures var rq := Requeue(w.k).rq; var q := Highest(rq, MAX_PRIORITY); q != NULL && 0 <= rq[q][0] < NPROC
    ensures Inv(w.(k := Sched(w.k)))
  {
    SchedSafe(w.k);
    SchedKeeps(w.k);
    HistoryKept(w, Sched(w.k), w.replies);
  }

  /** Scheduling changes no state of a process, no message and no queue of senders. */
  lemma SchedKeeps(k: Kernel)
    requires Shape(k) && Shape(Requeue(k))
    requires var rq := Requeue(k).rq; var q := Highest(rq, MAX_PRIORITY); q != NULL && 0 <= rq[q][0] < NPROC
    ensures var k' := Sched(k);
            && |k'.ps| == NPROC && k'.sq == k.sq
            && forall p :: 0 <= p < NPROC ==>
                 && k'.ps[p].inUse == k.ps[p].inUse && k'.ps[p].state == k.ps[p].state
                 && k'.ps[p].msg == k.ps[p].msg && k'.ps[p].reg0 == k.ps[p].reg0
  {
  }

  /**
   What may happen in a world: the running process, never IDLE, makes a call; the
   system task answers one; the clock ticks; the priorities are reset. A direct
   call is a SENDREC to the system task. No process sends to itself.
   */
  predicate May(w: World, e: Event)
    requires |w.k.ps| == NPROC
  {
    match e
    case Syscall(op, direct) =>
      && w.k.cur != IDLE
      && (direct ==> op.SendRec? && op.dest == 0)
      && (op.Send? || op.SendRec? ==> GetProc(w.k, op.dest) != w.k.cur)
      && (op.SendRec? ==> w.k.cur != SYSTEM)
    case Reply(dest, m) => w.k.cur == SYSTEM
    case Tick => true
    case Rebalance => true
  }

  lemma PerformOk(w: World, op: Op)
    requires Inv(w) && May(w, Syscall(op, false))
    ensures w.k.sq[w.k.cur] != [] ==> 0 <= w.k.sq[w.k.cur][0] < NPROC
    ensures var w' := Perform(w, op).0; WorldOk(w') && w'.k.cur == w.k.cur && InUse(w'.k, w'.k.cur)
  {
    var c := w.k.cur;
    ReceiveOpOk(w, w.k.ps[c].msg);
    match op
    case Send(dest, m) => SendOpOk(w, dest, m.(src := c - SYSTEM), false);
    case SendRec(dest, m) => SendOpOk(w, dest, m.(src := c - SYSTEM), true);
    case Receive(m) => ReceiveOpOk(w, m.(src := c - SYSTEM));
    case Notify(dest, m) => NotifyOpOk(w, c, dest, m.(src := c - SYSTEM));
    case Unknown =>
  }

  /** The world an event leads to, before the scheduler runs. */
  function Effect(w: World, e: Event): World
    requires Shape(w.k) && 0 <= w.k.cur < NPROC
    requires w.k.sq[w.k.cur] != [] ==> 0 <= w.k.sq[w.k.cur][0] < NPROC
    requires e.Syscall? ==> w.k.cur < |Perform(w, e.op).0.k.ps|
  {
    match e
    case Syscall(op, direct) =>
      var r := Perform(w, op);
      if !direct || r.1 < 0 then SetResult(r.0, w.k.cur, r.1) else r.0
    case Reply(dest, m) => NotifyOp(w, SYSTEM, dest, m).0
    case Tick => w.(k := OneTick(w.k))
    case Rebalance => w.(k := Rebalanced(w.k))
  }

  lemma EffectOk(w: World, e: Event)
    requires Inv(w) && May(w, e)
    ensures w.k.sq[w.k.cur] != [] ==> 0 <= w.k.sq[w.k.cur][0] < NPROC
    ensures e.Syscall? ==> w.k.cur < |Perform(w, e.op).0.k.ps|
    ensures var w' := Effect(w, e);
            && WorldOk(w') && w'.k.cur == w.k.cur && InUse(w'.k, w'.k.cur)
            && (!e.Syscall? ==> Ready(w'.k, w'.k.cur))
  {
    var c := w.k.cur;
    ReceiveHead(w);
    match e
    case Syscall(op, direct) =>
      PerformOk(w, op);
      var r := Perform(w, op);
      ResultOk(r.0, c, r.1);
    case Reply(dest, m) => NotifyOpOk(w, SYSTEM, dest, m);
    case Tick => TickOk(w);
    case Rebalance => RebalancedOk(w);
  }

  lemma ReceiveHead(w: World)
    requires Inv(w)
    ensures Safe(w.k) && Ready(w.k, w.k.cur)
    ensures w.k.sq[w.k.cur] != [] ==> 0 <= w.k.sq[w.k.cur][0] < NPROC
  {
    if w.k.sq[w.k.cur] != [] {
      SenderKnown(w.k, w.k.cur, w.k.sq[w.k.cur][0]);
    }
  }

  lemma TickOk(w: World)
    requires Inv(w)
    ensures Inv(w.(k := OneTick(w.k)))
  {
    var c := w.k.cur;
    TouchWorld(w, c, w.k.ps[c].(ticksLeft := w.k.ps[c].ticksLeft - 1));
  }

  /** The result register matters to no invariant, even of a process that is now blocked. */
  lemma ResultOk(w: World, c: int, ret: int)
    requires WorldOk(w) && InUse(w.k, c)
    ensures WorldOk(SetResult(w, c, ret))
  {
    var x := w.k.ps[c].(reg0 := ret);
    Touch(w.k, c, x);
    HistoryKept(w, SetProc(w.k, c, x), w.replies);
  }

  lemma RebalancedOk(w: World)
    requires Inv(w)
    ensures Inv(w.(k := Rebalanced(w.k)))
  {
    hide HistoryOk;
    var k' := Rebalanced(w.k);
    assert forall p :: 0 <= p < NPROC ==>
      k'.ps[p].inUse == w.k.ps[p].inUse && k'.ps[p].state == w.k.ps[p].state && k'.ps[p].msg == w.k.ps[p].msg;
    HistoryKept(w, k', w.replies);
  }

  /** A step of the kernel; calls and ticks end in the scheduler. */
  ghost function Next(w: World, e: Event): (w': World)
    requires Inv(w) && May(w, e)
    ensures Inv(w')
  {
    EffectOk(w, e);
    var w1 := Effect(w, e);
    if e.Syscall? || e.Tick? then
      SchedWorld(w1);
      w1.(k := Sched(w1.k))
    else w1
  }

  /** A run: the events happen in turn, those that cannot happen are passed over. */
  ghost function After(w: World, es: seq<Event>): (w': World)
    requires Inv(w)
    ensures Inv(w')
    decreases |es|
  {
    if es == [] then w
    else After(if May(w, es[0]) then Next(w, es[0]) else w, es[1..])
  }
}
