/**
 What the invariant of the runs means: exactly-once delivery, what history can
 do, the state after boot, and where the source's promises end.
 */
module KernelSafety {
  import opened KernelSteps
  import opened KernelRuns

  // ----- exactly-once delivery -----

  /**
   In every world of every run a message that do_send accepted has been received
   exactly once, unaltered and at its destination, or its sender is still blocked
   with it in the queue of the destination.
   */
  lemma ExactlyOnce(w0: World, es: seq<Event>, id: nat)
    requires Inv(w0) && id < |After(w0, es).log|
    ensures var w := After(w0, es); var e := w.log[id];
            if e.fate.Taken? then
              && e.fate.at < |w.got| && w.got[e.fate.at] == Delivery(id, e.dst, e.m)
              && forall i :: 0 <= i < |w.got| && w.got[i].id == id ==> i == e.fate.at
            else
              && 0 <= e.dst < NPROC && Sending(w.k, e.src) && e.src in w.k.sq[e.dst] && w.k.ps[e.src].msg == e.m
              && forall i :: 0 <= i < |w.got| ==> w.got[i].id != id
  {
    hide After;
    var w := After(w0, es);
    assert EntryOk(w, id);
    var e := w.log[id];
    if e.fate.Taken? {
      assert DeliveryOk(w, e.fate.at);
    } else {
      assert PendingOk(w, e.src);
    }
    forall i | 0 <= i < |w.got| && w.got[i].id == id ensures e.fate == Taken(i) {
      assert DeliveryOk(w, i);
    }
  }

  /** What was received stays received; an entry only ever goes from waiting to received. */
  ghost predicate Grows(w: World, w': World) {
    && w.got <= w'.got && |w.log| <= |w'.log|
    && forall id :: 0 <= id < |w.log| ==> EntryGrows(w.log[id], w'.log[id], |w.got|)
  }

  predicate EntryGrows(e: Entry, e': Entry, n: nat) {
    e' == e || (e.fate == Waiting && e'.fate.Taken? && e'.fate.at >= n && e' == e.(fate := e'.fate))
  }

  lemma SendGrows(w: World, dest: int, m: Message, rec: bool)
    requires Shape(w.k) && 0 <= w.k.cur < NPROC
    ensures Grows(w, SendOp(w, w.k.cur, dest, m, rec).0)
  {
  }

  lemma ReceiveGrows(w: World, m: Message)
    requires Inv(w)
    ensures w.k.sq[w.k.cur] != [] ==> 0 <= w.k.sq[w.k.cur][0] < NPROC
    ensures Grows(w, ReceiveOp(w, m))
  {
    hide WorldOk;
    hide DoReceive;
    ReceiveHead(w);
    if w.k.sq[w.k.cur] != [] {
      FirstSender(w, w.k.cur);
    }
  }

  lemma EffectGrows(w: World, e: Event)
    requires Inv(w) && May(w, e)
    ensures w.k.sq[w.k.cur] != [] ==> 0 <= w.k.sq[w.k.cur][0] < NPROC
    ensures e.Syscall? ==> w.k.cur < |Perform(w, e.op).0.k.ps|
    ensures Grows(w, Effect(w, e))
  {
    EffectOk(w, e);
    var c := w.k.cur;
    if e.Syscall? {
      match e.op
      case Send(dest, m) => SendGrows(w, dest, m.(src := c - SYSTEM), false);
      case SendRec(dest, m) => SendGrows(w, dest, m.(src := c - SYSTEM), true);
      case Receive(m) => ReceiveGrows(w, m.(src := c - SYSTEM));
      case _ =>
    }
  }

  lemma {:induction false} HistoryGrows(w: World, es: seq<Event>)
    requires Inv(w)
    ensures Grows(w, After(w, es))
    decreases |es|
  {
    if es != [] {
      var w1 := if May(w, es[0]) then Next(w, es[0]) else w;
      if May(w, es[0]) {
        NextGrows(w, es[0]);
      }
      HistoryGrows(w1, es[1..]);
      GrowsOn(w, w1, After(w1, es[1..]));
    }
  }

  lemma NextGrows(w: World, e: Event)
    requires Inv(w) && May(w, e)
    ensures Grows(w, Next(w, e))
  {
    hide Effect;
    hide Sched;
    hide Inv;
    EffectGrows(w, e);
  }

  lemma GrowsOn(w: World, w1: World, w2: World)
    requires Grows(w, w1) && Grows(w1, w2)
    ensures Grows(w, w2)
  {
  }

  // ----- queues -----

  /**
   In every world of every run, a process is in the ready queues once if it can
   run and is not running, else never.
   */
  lemma RunnableOnce(w0: World, es: seq<Event>, p: int)
    requires Inv(w0)
    ensures var k := After(w0, es).k;
            Ready(k, k.cur) && All(k.rq)[p] == if Ready(k, p) && p != k.cur then 1 else 0
  {
    hide After;
    hide All;
  }

  /**
   The system task never waits for a message while a sender waits for it, nor
   does any process that awaits no reply.
   */
  lemma NoLostWakeUp(w0: World, es: seq<Event>, p: int)
    requires Inv(w0) && InUse(After(w0, es).k, p) && After(w0, es).k.ps[p].state == RECEIVING
    requires p == SYSTEM || p !in After(w0, es).replies
    ensures After(w0, es).k.sq[p] == []
  {
    hide After;
    hide All;
  }

  /**
   A process is in a queue of senders exactly if it is blocked in a send, in one
   only, and not opposite its receiver.
   */
  lemma SendersOnce(w0: World, es: seq<Event>, p: int, d: int)
    requires Inv(w0) && 0 <= p < NPROC && 0 <= d < NPROC
    ensures var k := After(w0, es).k;
            && (p in k.sq[d] ==>
                  Sending(k, p) && d !in k.sq[p] && forall e :: 0 <= e < NPROC && p in k.sq[e] ==> e == d)
            && (Sending(k, p) ==> exists e :: 0 <= e < NPROC && p in k.sq[e])
  {
    hide After;
    var k := After(w0, es).k;
    if p in k.sq[d] {
      SenderKnown(k, d, p);
      forall e | 0 <= e < NPROC && p in k.sq[e] ensures e == d {
        OneQueue(k, d, e, p);
      }
    }
    if Sending(k, p) {
      var e := AllFind(k.sq, p);
    }
  }

  // ----- boot -----

  const NONE := Message(0, 0, [])

  function Unused(): Proc {
    Proc(false, false, State(true, true, true, 1), NONE, DEFAULT_PRIORITY, 8, 0, -1)
  }

  function Booted(user: bool, priority: nat, quantum: int): Proc {
    Proc(true, user, RUNNABLE, NONE, priority, quantum, 0, -1)
  }

  function Empties(n: nat): seq<seq<int>> {
    seq(n, i => [])
  }

  /** The kernel when main has started the three tasks and init, before it schedules. */
  function Boot(): World {
    World(Kernel([Booted(false, 0, 1), Booted(false, 0, 1), Booted(false, MAX_PRIORITY, 64),
                  Booted(true, DEFAULT_PRIORITY, 8)]
                   + seq(8, i => Unused()),
                 [[IDLE, PARALLEL], [], [], [INIT], [SYSTEM]], Empties(NPROC), NULL),
          [], map[], [], {})
  }

  /** The first run starts in the invariant, with the system task running. */
  lemma BootOk()
    ensures WorldOk(Boot())
    ensures Shape(Requeue(Boot().k))
    ensures var rq := Requeue(Boot().k).rq; var q := Highest(rq, MAX_PRIORITY); q != NULL && 0 <= rq[q][0] < NPROC
    ensures Inv(Boot().(k := Sched(Boot().k))) && Sched(Boot().k).cur == SYSTEM
  {
    hide WorldOk;
    BootWorld();
    SchedWorld(Boot());
  }

  /** Any kernel in which every process can run and waits in a ready queue is a place to start from. */
  lemma QuietStart(k: Kernel)
    requires Shape(k) && ReadyOk(k) && Ready(k, IDLE) && k.sq == Empties(NPROC)
    requires forall p :: InUse(k, p) ==> k.ps[p].state == RUNNABLE
    ensures WorldOk(World(k, [], map[], [], {}))
  {
    hide All;
    hide ReadyOk;
    hide Shape;
    BootSenders(NPROC);
  }

  lemma BootWorld()
    ensures WorldOk(Boot())
  {
    hide ReadyOk;
    hide WorldOk;
    BootReady();
    QuietStart(Boot().k);
  }

  lemma AllCons(q: seq<int>, qs: seq<seq<int>>)
    ensures All([q] + qs) == multiset(q) + All(qs)
  {
  }

  lemma BootReady()
    ensures ReadyOk(Boot().k)
  {
    assert All([[SYSTEM]]) == multiset{SYSTEM};
    AllCons([INIT], [[SYSTEM]]);
    AllCons([], [[INIT], [SYSTEM]]);
    AllCons([], [[], [INIT], [SYSTEM]]);
    AllCons([IDLE, PARALLEL], [[], [], [INIT], [SYSTEM]]);
    var rq := Boot().k.rq;
    assert rq == [[IDLE, PARALLEL]] + [[], [], [INIT], [SYSTEM]];
    assert All(rq) == multiset{IDLE, PARALLEL, SYSTEM, INIT};
  }

  lemma {:induction false} BootSenders(n: nat)
    ensures All(Empties(n)) == multiset{}
  {
    if n > 0 {
      BootSenders(n - 1);
      assert Empties(n)[1..] == Empties(n - 1);
    }
  }

  // ----- where the promises end -----

  /**
   A send keeps the kernel safe exactly when it is not to the sender itself: a
   SENDREC to itself is queued twice by the next sched, a SEND to itself waits
   in its own queue for ever. The deadlock check of do_send does not catch either.
   */
  lemma SendSafeIffNotToSelf(w: World, dest: int, m: Message, rec: bool)
    requires Inv(w) && w.k.cur != IDLE && (rec ==> w.k.cur != SYSTEM)
    ensures WorldOk(SendOp(w, w.k.cur, dest, m, rec).0) <==> GetProc(w.k, dest) != w.k.cur
  {
    var c := w.k.cur;
    if GetProc(w.k, dest) != c {
      SendOpOk(w, dest, m, rec);
    } else {
      var k' := SendOp(w, c, dest, m, rec).0.k;
      if rec {
        AllPush(w.k.rq, w.k.ps[c].priority, c);
        assert k'.rq == w.k.rq[w.k.ps[c].priority := [c] + w.k.rq[w.k.ps[c].priority]];
        assert All(k'.rq)[c] == 1;
        assert !ReadyOk(k');
      } else {
        assert c in k'.sq[c];
        assert !NoMutualSend(k');
      }
    }
  }
}
