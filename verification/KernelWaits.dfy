/**
 Waiting in receive with senders in one's queue: exactly which events bring that
 about, over whole runs, and two runs from boot in which it happens.
 */
module KernelWaits {
  import opened KernelSteps
  import opened KernelRuns
  import opened KernelSafety

  const SENDREC := State(true, true, false, 0)
  const SENDING := State(true, false, false, 0)

  /** No process waits in receive while a sender waits for it. */
  predicate Quiet(k: Kernel) {
    && |k.ps| == |k.sq| == NPROC
    && forall p :: 0 <= p < NPROC && k.ps[p].inUse && k.ps[p].state == RECEIVING ==> k.sq[p] == []
  }

  /**
   The two ways to be stranded: a process with senders in its queue sends a
   SENDREC that is delivered at once, or the message of a process in SENDREC that
   has senders in its own queue is taken.
   */
  predicate Strands(k: Kernel, e: Event)
    requires Shape(k) && 0 <= k.cur < NPROC
  {
    match e
    case Syscall(SendRec(dest, _), _) =>
      var d := GetProc(k, dest);
      d != NULL && k.ps[d].state == RECEIVING && k.sq[k.cur] != []
    case Syscall(Receive(_), _) =>
      k.sq[k.cur] != [] && var p := k.sq[k.cur][0]; 0 <= p < NPROC && k.ps[p].state == SENDREC && k.sq[p] != []
    case _ => false
  }

  // ----- one event -----

  /** What a send leaves behind: refused, delivered or blocked. */
  lemma SendCases(w: World, dest: int, m: Message, rec: bool)
    requires Shape(w.k) && Ready(w.k, w.k.cur) && GetProc(w.k, dest) != w.k.cur
    ensures var c, d := w.k.cur, GetProc(w.k, dest); var k := SendOp(w, c, dest, m, rec).0.k;
            && |k.ps| == |k.sq| == NPROC && k.ps[c].inUse
            && (forall p :: 0 <= p < NPROC && p != c && p != d ==> k.ps[p] == w.k.ps[p])
            && (d != NULL ==> k.ps[d].inUse)
            && if d == NULL || (w.k.ps[d].state.sending && d in w.k.sq[c]) then
                 k.sq == w.k.sq && k.ps[c].state == RUNNABLE && (d != NULL ==> k.ps[d] == w.k.ps[d])
               else if w.k.ps[d].state == RECEIVING then
                 k.sq == w.k.sq && k.ps[c].state.receiving == rec && !k.ps[c].state.sending && k.ps[d].state == RUNNABLE
                 && (rec ==> k.ps[c].state == RECEIVING)
               else
                 k.sq == w.k.sq[d := [c] + w.k.sq[d]] && k.ps[c].state.sending && k.ps[d] == w.k.ps[d]
  {
  }

  lemma SendQuiet(w: World, dest: int, m: Message, rec: bool)
    requires Inv(w) && Quiet(w.k)
    requires w.k.cur != IDLE && (rec ==> w.k.cur != SYSTEM) && GetProc(w.k, dest) != w.k.cur
    ensures var k := SendOp(w, w.k.cur, dest, m, rec).0.k;
            |k.ps| == |k.sq| == NPROC && (Quiet(k) <==> !(rec && Strands(w.k, Syscall(SendRec(dest, m), false))))
  {
    hide Inv;
    hide SendOp;
    ReceiveHead(w);
    SendCases(w, dest, m, rec);
  }

  lemma ReceiveQuiet(w: World, m: Message)
    requires Inv(w) && Quiet(w.k) && w.k.cur != IDLE
    ensures w.k.sq[w.k.cur] != [] ==> 0 <= w.k.sq[w.k.cur][0] < NPROC
    ensures var k := ReceiveOp(w, m).k;
            |k.ps| == |k.sq| == NPROC && (Quiet(k) <==> !Strands(w.k, Syscall(Receive(m), false)))
  {
    hide HistoryOk;
    hide ReadyOk;
    hide Accept;
    ReceiveOpOk(w, m);
    var c := w.k.cur;
    if w.k.sq[c] != [] {
      FirstSender(w, c);
      AcceptFacts(w.k, c);
    }
  }

  lemma NotifyQuiet(w: World, src: int, dest: int, m: Message)
    requires Inv(w) && Quiet(w.k) && Ready(w.k, src)
    ensures var k := NotifyOp(w, src, dest, m).0.k; |k.ps| == |k.sq| == NPROC && Quiet(k)
  {
    hide HistoryOk;
    hide ReadyOk;
    NotifyOpOk(w, src, dest, m);
  }

  /** Quiet is about states and queues of senders alone. */
  lemma SameQuiet(k: Kernel, k': Kernel)
    requires |k.ps| == |k'.ps| == |k.sq| == |k'.sq| == NPROC && k'.sq == k.sq
    requires forall p :: 0 <= p < NPROC ==> k'.ps[p].inUse == k.ps[p].inUse && k'.ps[p].state == k.ps[p].state
    ensures Quiet(k') <==> Quiet(k)
  {
  }

  lemma PerformQuiet(w: World, op: Op)
    requires Inv(w) && Quiet(w.k) && May(w, Syscall(op, false))
    ensures w.k.sq[w.k.cur] != [] ==> 0 <= w.k.sq[w.k.cur][0] < NPROC
    ensures var k := Perform(w, op).0.k;
            |k.ps| == |k.sq| == NPROC && (Quiet(k) <==> !Strands(w.k, Syscall(op, false)))
  {
    hide WorldOk;
    hide Quiet;
    hide SendOp;
    hide ReceiveOp;
    hide NotifyOp;
    var c := w.k.cur;
    ReceiveHead(w);
    match op
    case Send(dest, m) => SendQuiet(w, dest, m.(src := c - SYSTEM), false);
    case SendRec(dest, m) => SendQuiet(w, dest, m.(src := c - SYSTEM), true);
    case Receive(m) => ReceiveQuiet(w, m.(src := c - SYSTEM));
    case Notify(dest, m) => NotifyQuiet(w, c, dest, m.(src := c - SYSTEM));
    case Unknown =>
  }

  lemma EffectQuiet(w: World, e: Event)
    requires Inv(w) && Quiet(w.k) && May(w, e)
    ensures w.k.sq[w.k.cur] != [] ==> 0 <= w.k.sq[w.k.cur][0] < NPROC
    ensures e.Syscall? ==> w.k.cur < |Perform(w, e.op).0.k.ps|
    ensures var k := Effect(w, e).k; |k.ps| == |k.sq| == NPROC && (Quiet(k) <==> !Strands(w.k, e))
  {
    hide HistoryOk;
    hide WaitsOk;
    hide ReadyOk;
    hide SendersOk;
    hide Quiet;
    hide Perform;
    hide NotifyOp;
    EffectOk(w, e);
    var k := Effect(w, e).k;
    match e
    case Syscall(op, direct) =>
      PerformQuiet(w, op);
      SameQuiet(Perform(w, op).0.k, k);
    case Reply(dest, m) => NotifyQuiet(w, SYSTEM, dest, m);
    case Tick => SameQuiet(w.k, k);
    case Rebalance => SameQuiet(w.k, k);
  }

  /** From a world in which nobody is stranded, an event strands somebody exactly if it is one of the two kinds. */
  lemma QuietNext(w: World, e: Event)
    requires Inv(w) && Quiet(w.k) && May(w, e)
    ensures Quiet(Next(w, e).k) <==> !Strands(w.k, e)
  {
    hide HistoryOk;
    hide WaitsOk;
    hide ReadyOk;
    hide SendersOk;
    hide Quiet;
    hide Effect;
    hide Sched;
    hide Strands;
    EffectOk(w, e);
    EffectQuiet(w, e);
    var w1 := Effect(w, e);
    if e.Syscall? || e.Tick? {
      SchedWorld(w1);
      SchedKeeps(w1.k);
      SameQuiet(w1.k, Sched(w1.k));
    }
  }

  /** Whom such an event strands: the sender itself, or the process whose message is taken. */
  function Victim(k: Kernel, e: Event): int
    requires Shape(k) && 0 <= k.cur < NPROC && Strands(k, e)
  {
    if e.op.SendRec? then k.cur else k.sq[k.cur][0]
  }

  lemma VictimSends(w: World, dest: int, m: Message)
    requires Inv(w) && w.k.cur != SYSTEM && w.k.cur != IDLE && GetProc(w.k, dest) != w.k.cur
    requires Strands(w.k, Syscall(SendRec(dest, m), false))
    ensures var c := w.k.cur; var w' := SendOp(w, c, dest, m, true).0;
            |w'.k.ps| == |w'.k.sq| == NPROC && w'.k.ps[c].state == RECEIVING && w'.k.sq == w.k.sq && c in w'.replies
  {
    hide Inv;
    ReceiveHead(w);
  }

  lemma VictimIsTaken(w: World, m: Message)
    requires Inv(w) && Strands(w.k, Syscall(Receive(m), false))
    ensures var p := w.k.sq[w.k.cur][0]; var w' := ReceiveOp(w, m);
            |w'.k.ps| == |w'.k.sq| == NPROC && w'.k.ps[p].state == RECEIVING && w'.k.sq[p] == w.k.sq[p]
            && p in w'.replies
  {
    hide HistoryOk;
    hide ReadyOk;
    hide SendersOk;
    hide Accept;
    FirstSender(w, w.k.cur);
    AcceptFacts(w.k, w.k.cur);
  }

  /** In any world: the victim waits in receive, for a reply, and its senders go on waiting. */
  lemma VictimWaits(w: World, e: Event)
    requires Inv(w) && May(w, e) && Strands(w.k, e)
    ensures var p := Victim(w.k, e); var w' := Next(w, e);
            w'.k.ps[p].state == RECEIVING && w'.k.sq[p] == w.k.sq[p] != [] && p in w'.replies
  {
    hide HistoryOk;
    hide WaitsOk;
    hide ReadyOk;
    hide SendersOk;
    hide Sched;
    hide SendOp;
    hide ReceiveOp;
    EffectOk(w, e);
    var w1 := Effect(w, e);
    if e.op.Receive? {
      VictimIsTaken(w, e.op.m.(src := w.k.cur - SYSTEM));
    } else {
      VictimSends(w, e.op.dest, e.op.m.(src := w.k.cur - SYSTEM));
    }
    SchedWorld(w1);
    SchedKeeps(w1.k);
  }

  // ----- whole runs -----

  /** No event of the run is of the two kinds. */
  ghost predicate NoneStrands(w: World, es: seq<Event>)
    requires Inv(w)
    decreases |es|
  {
    es == [] || ((May(w, es[0]) ==> !Strands(w.k, es[0])) && NoneStrands(Then(w, es[0]), es[1..]))
  }

  ghost function Then(w: World, e: Event): (w': World)
    requires Inv(w)
    ensures Inv(w')
  {
    if May(w, e) then Next(w, e) else w
  }

  lemma {:induction false} StaysQuiet(w: World, es: seq<Event>, n: nat)
    requires Inv(w) && Quiet(w.k) && NoneStrands(w, es) && n <= |es|
    ensures Quiet(After(w, es[..n]).k)
    decreases |es|
  {
    hide Quiet;
    hide Strands;
    hide Next;
    hide Inv;
    if n > 0 {
      var e := es[0];
      ReceiveHead(w);
      if May(w, e) {
        QuietNext(w, e);
      }
      StaysQuiet(Then(w, e), es[1..], n - 1);
      assert es[..n][0] == e && es[..n][1..] == es[1..][..n - 1];
    }
  }

  lemma {:induction false} Stranding(w: World, es: seq<Event>) returns (n: nat)
    requires Inv(w) && Quiet(w.k) && !NoneStrands(w, es)
    ensures n <= |es| && !Quiet(After(w, es[..n]).k)
    decreases |es|
  {
    hide Quiet;
    hide Strands;
    hide Next;
    hide Inv;
    var e := es[0];
    ReceiveHead(w);
    if May(w, e) {
      QuietNext(w, e);
    }
    if May(w, e) && Strands(w.k, e) {
      n := 1;
      assert es[..1] == [e];
    } else {
      n := Stranding(Then(w, e), es[1..]);
      n := n + 1;
      assert es[..n][0] == e && es[..n][1..] == es[1..][..n - 1];
    }
  }

  /** Nobody is ever stranded in a run exactly if none of its events is of the two kinds. */
  lemma QuietRuns(w: World, es: seq<Event>)
    requires Inv(w) && Quiet(w.k)
    ensures NoneStrands(w, es) <==> forall n :: 0 <= n <= |es| ==> Quiet(After(w, es[..n]).k)
  {
    hide Quiet;
    hide NoneStrands;
    hide After;
    hide Inv;
    if NoneStrands(w, es) {
      forall n | 0 <= n <= |es| ensures Quiet(After(w, es[..n]).k) {
        StaysQuiet(w, es, n);
      }
    } else {
      var n := Stranding(w, es);
    }
  }

  // ----- two runs from boot -----

  /** The three tasks and init as boot makes them, in some states and with some ticks left. */
  ghost predicate Snap(k: Kernel, cur: int, system: State, init: State, idleTicks: int, parallelTicks: int) {
    && Shape(k) && k.cur == cur
    && k.ps[IDLE].inUse && k.ps[PARALLEL].inUse && k.ps[SYSTEM].inUse && k.ps[INIT].inUse
    && !k.ps[IDLE].user && !k.ps[PARALLEL].user
    && k.ps[IDLE].state == k.ps[PARALLEL].state == RUNNABLE && k.ps[SYSTEM].state == system && k.ps[INIT].state == init
    && k.ps[IDLE].priority == k.ps[PARALLEL].priority == 0 && k.ps[SYSTEM].priority == MAX_PRIORITY
    && k.ps[IDLE].quantum == k.ps[PARALLEL].quantum == 1
    && k.ps[IDLE].ticksLeft == idleTicks && k.ps[PARALLEL].ticksLeft == parallelTicks
  }

  ghost predicate ReadyQueues(k: Kernel, q0: seq<int>, q3: seq<int>, q4: seq<int>) {
    |k.rq| == NUM_QUEUES && k.rq[0] == q0 && k.rq[1] == [] && k.rq[2] == [] && k.rq[3] == q3 && k.rq[4] == q4
  }

  ghost predicate SenderQueues(k: Kernel, parallel: seq<int>, init: seq<int>) {
    |k.sq| == NPROC && k.sq[SYSTEM] == [] && k.sq[PARALLEL] == parallel && k.sq[INIT] == init
  }

  /** The head of a queue with nothing above it is dispatched. */
  lemma HighestIs(rq: seq<seq<int>>, q: nat)
    requires |rq| == NUM_QUEUES && q < NUM_QUEUES && rq[q] != [] && forall j :: q < j < NUM_QUEUES ==> rq[j] == []
    ensures Highest(rq, MAX_PRIORITY) == q
  {
  }

  lemma NextIs(w: World, e: Event)
    requires Inv(w) && May(w, e) && (e.Syscall? || e.Tick?)
    requires w.k.sq[w.k.cur] != [] ==> 0 <= w.k.sq[w.k.cur][0] < NPROC
    requires e.Syscall? ==> w.k.cur < |Perform(w, e.op).0.k.ps|
    ensures var k := Effect(w, e).k;
            && Shape(k) && Shape(Requeue(k))
            && (var rq := Requeue(k).rq; var q := Highest(rq, MAX_PRIORITY); q != NULL && 0 <= rq[q][0] < NPROC)
            && Next(w, e).k == Sched(k)
  {
    hide HistoryOk;
    hide WaitsOk;
    hide ReadyOk;
    hide SendersOk;
    EffectOk(w, e);
    SchedWorld(Effect(w, e));
  }

  ghost function Started(): (w: World)
    ensures Inv(w)
  {
    BootOk();
    Boot().(k := Sched(Boot().k))
  }

  lemma StartedIs()
    ensures var k := Started().k;
            Snap(k, SYSTEM, RUNNABLE, RUNNABLE, 0, 0) && ReadyQueues(k, [IDLE, PARALLEL], [INIT], [])
            && SenderQueues(k, [], [])
  {
    hide WorldOk;
    BootOk();
    HighestIs(Requeue(Boot().k).rq, 4);
  }

  lemma SystemReceives(w: World, m: Message)
    requires Inv(w) && Snap(w.k, SYSTEM, RUNNABLE, RUNNABLE, 0, 0)
    requires ReadyQueues(w.k, [IDLE, PARALLEL], [INIT], []) && SenderQueues(w.k, [], [])
    ensures var e := Syscall(Receive(m), false); var k := Next(w, e).k;
            && Snap(k, INIT, RECEIVING, RUNNABLE, 0, 0)
            && ReadyQueues(k, [IDLE, PARALLEL], [], []) && SenderQueues(k, [], [])
  {
    hide Inv;
    hide Next;
    NextIs(w, Syscall(Receive(m), false));
    HighestIs(w.k.rq, 3);
  }

  /** INIT sends to PARALLEL, with a reply to wait for or without. */
  lemma InitSends(w: World, m: Message, rec: bool)
    requires Inv(w) && Snap(w.k, INIT, RECEIVING, RUNNABLE, 0, 0)
    requires ReadyQueues(w.k, [IDLE, PARALLEL], [], []) && SenderQueues(w.k, [], [])
    ensures May(w, InitSend(m, rec))
    ensures var k := Next(w, InitSend(m, rec)).k;
            && Snap(k, IDLE, RECEIVING, if rec then SENDREC else SENDING, 1, 0)
            && ReadyQueues(k, [PARALLEL], [], []) && SenderQueues(k, [INIT], [])
  {
    hide Inv;
    hide Next;
    NextIs(w, InitSend(m, rec));
    HighestIs(w.k.rq, 0);
  }

  function InitSend(m: Message, rec: bool): Event {
    Syscall(if rec then SendRec(-1, m) else Send(-1, m), false)
  }

  lemma IdleTicks(w: World, init: State)
    requires Inv(w) && Snap(w.k, IDLE, RECEIVING, init, 1, 0)
    requires ReadyQueues(w.k, [PARALLEL], [], []) && SenderQueues(w.k, [INIT], [])
    ensures var k := Next(w, Tick).k;
            && Snap(k, PARALLEL, RECEIVING, init, 0, 1)
            && ReadyQueues(k, [IDLE], [], []) && SenderQueues(k, [INIT], [])
  {
    hide Inv;
    hide Next;
    ReceiveHead(w);
    NextIs(w, Tick);
    HighestIs(Requeue(OneTick(w.k)).rq, 0);
  }

  lemma ParallelNotifies(w: World, m: Message)
    requires Inv(w) && Snap(w.k, PARALLEL, RECEIVING, SENDREC, 0, 1)
    requires ReadyQueues(w.k, [IDLE], [], []) && SenderQueues(w.k, [INIT], [])
    ensures var e := Syscall(Notify(0, m), false); var k := Next(w, e).k;
            && Snap(k, SYSTEM, RUNNABLE, SENDREC, 0, 1)
            && ReadyQueues(k, [PARALLEL, IDLE], [], []) && SenderQueues(k, [INIT], [])
  {
    hide Inv;
    hide Next;
    var e := Syscall(Notify(0, m), false);
    NextIs(w, e);
    HighestIs(Requeue(Effect(w, e).k).rq, 4);
  }

  lemma SystemSends(w: World, m: Message)
    requires Inv(w) && Snap(w.k, SYSTEM, RUNNABLE, SENDREC, 0, 1)
    requires ReadyQueues(w.k, [PARALLEL, IDLE], [], []) && SenderQueues(w.k, [INIT], [])
    ensures var e := Syscall(Send(1, m), false); May(w, e)
    ensures var k := Next(w, Syscall(Send(1, m), false)).k;
            && Snap(k, PARALLEL, SENDING, SENDREC, 0, 1)
            && ReadyQueues(k, [IDLE], [], []) && SenderQueues(k, [INIT], [SYSTEM])
  {
    hide Inv;
    hide Next;
    NextIs(w, Syscall(Send(1, m), false));
    HighestIs(w.k.rq, 0);
  }

  /** The first three events of both runs, with any messages. */
  function Opening(m: Message, m': Message, rec: bool): seq<Event> {
    [Syscall(Receive(m), false), InitSend(m', rec), Tick]
  }

  lemma FirstEvent(w: World, e: Event, es: seq<Event>)
    requires Inv(w) && May(w, e)
    ensures After(w, [e] + es) == After(Next(w, e), es)
  {
    hide Inv;
    hide Next;
    assert ([e] + es)[1..] == es;
  }

  /** From boot they lead to PARALLEL running, with INIT in its queue and SYSTEM in receive. */
  lemma OpeningLeads(m: Message, m': Message, rec: bool)
    ensures var k := After(Started(), Opening(m, m', rec)).k;
            && Snap(k, PARALLEL, RECEIVING, if rec then SENDREC else SENDING, 0, 1)
            && ReadyQueues(k, [IDLE], [], []) && SenderQueues(k, [INIT], [])
  {
    hide Inv;
    hide Next;
    hide Started;
    var es := Opening(m, m', rec);
    StartedIs();
    var w0 := Started();
    SystemReceives(w0, m);
    FirstEvent(w0, es[0], es[1..]);
    assert [es[0]] + es[1..] == es;
    var w1 := Next(w0, es[0]);
    InitSends(w1, m', rec);
    FirstEvent(w1, es[1], es[2..]);
    assert [es[1]] + es[2..] == es[1..];
    var w2 := Next(w1, es[1]);
    IdleTicks(w2, if rec then SENDREC else SENDING);
    FirstEvent(w2, es[2], []);
    assert [es[2]] + [] == es[2..];
  }

  /** A run goes on with one more event. */
  lemma {:induction false} LastEvent(w: World, es: seq<Event>, e: Event)
    requires Inv(w) && May(After(w, es), e)
    ensures After(w, es + [e]) == Next(After(w, es), e)
    decreases |es|
  {
    hide HistoryOk;
    hide WaitsOk;
    hide ReadyOk;
    hide SendersOk;
    hide Next;
    if es == [] {
      assert (es + [e])[1..] == [];
    } else {
      var w1 := if May(w, es[0]) then Next(w, es[0]) else w;
      LastEvent(w1, es[1..], e);
      assert (es + [e])[1..] == es[1..] + [e];
    }
  }

  /** The one way to be stranded, in four events from boot: PARALLEL sends with INIT in its queue. */
  lemma StrandedBySending(m: Message, m': Message, m'': Message)
    ensures var es := Opening(m, m', false) + [Syscall(SendRec(0, m''), false)]; var k := After(Started(), es).k;
            k.ps[PARALLEL].state == RECEIVING && k.sq[PARALLEL] == [INIT]
  {
    hide Inv;
    hide After;
    hide Next;
    hide Started;
    hide Opening;
    OpeningLeads(m, m', false);
    var w, e := After(Started(), Opening(m, m', false)), Syscall(SendRec(0, m''), false);
    ParallelSendRecs(w, m'');
    LastEvent(Started(), Opening(m, m', false), e);
  }

  lemma ParallelSendRecs(w: World, m: Message)
    requires Inv(w) && Snap(w.k, PARALLEL, RECEIVING, SENDING, 0, 1)
    requires ReadyQueues(w.k, [IDLE], [], []) && SenderQueues(w.k, [INIT], [])
    ensures var e := Syscall(SendRec(0, m), false);
            May(w, e) && var k := Next(w, e).k; k.ps[PARALLEL].state == RECEIVING && k.sq[PARALLEL] == [INIT]
  {
    hide Inv;
    hide Next;
    VictimWaits(w, Syscall(SendRec(0, m), false));
  }

  /** The other way, in six events: PARALLEL takes the message of INIT while SYSTEM is in the queue of INIT. */
  lemma StrandedByReceiving(ms: seq<Message>)
    requires |ms| == 5
    ensures var es := Opening(ms[0], ms[1], true)
                      + [Syscall(Notify(0, ms[2]), false)] + [Syscall(Send(1, ms[3]), false)]
                      + [Syscall(Receive(ms[4]), false)];
            var k := After(Started(), es).k;
            k.ps[INIT].state == RECEIVING && k.sq[INIT] == [SYSTEM]
  {
    hide Inv;
    hide After;
    hide Next;
    hide Started;
    hide Opening;
    OpeningLeads(ms[0], ms[1], true);
    var es0 := Opening(ms[0], ms[1], true);
    var w0, e0 := After(Started(), es0), Syscall(Notify(0, ms[2]), false);
    ParallelNotifies(w0, ms[2]);
    LastEvent(Started(), es0, e0);
    var es1 := es0 + [e0];
    var w1, e1 := After(Started(), es1), Syscall(Send(1, ms[3]), false);
    SystemSends(w1, ms[3]);
    LastEvent(Started(), es1, e1);
    var es2 := es1 + [e1];
    var w2, e2 := After(Started(), es2), Syscall(Receive(ms[4]), false);
    ParallelReceives(w2, ms[4]);
    LastEvent(Started(), es2, e2);
  }

  lemma ParallelReceives(w: World, m: Message)
    requires Inv(w) && Snap(w.k, PARALLEL, SENDING, SENDREC, 0, 1) && SenderQueues(w.k, [INIT], [SYSTEM])
    ensures var k := Next(w, Syscall(Receive(m), false)).k; k.ps[INIT].state == RECEIVING && k.sq[INIT] == [SYSTEM]
  {
    hide Inv;
    hide Next;
    VictimWaits(w, Syscall(Receive(m), false));
  }
}
