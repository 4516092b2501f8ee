/**
 What one event does to the processes and to the history: who a message is
 from, what a receiver finds, which result a call gets, and what a tick does to
 priorities and quanta. Over whole runs, every message names its sender.
 */
module KernelEvents {
  import opened KernelSteps
  import opened KernelRuns
  import opened KernelSafety

  /** A step is its effect, and then the scheduler: that changes no message, no result and no history. */
  lemma NextKeeps(w: World, e: Event)
    requires Inv(w) && May(w, e)
    ensures w.k.sq[w.k.cur] != [] ==> 0 <= w.k.sq[w.k.cur][0] < NPROC
    ensures e.Syscall? ==> w.k.cur < |Perform(w, e.op).0.k.ps|
    ensures var w1, w' := Effect(w, e), Next(w, e);
            && w'.log == w1.log && w'.got == w1.got && |w'.k.ps| == |w1.k.ps| == NPROC && w'.k.sq == w1.k.sq
            && forall p :: 0 <= p < NPROC ==>
                 w'.k.ps[p].state == w1.k.ps[p].state && w'.k.ps[p].msg == w1.k.ps[p].msg &&
                 w'.k.ps[p].reg0 == w1.k.ps[p].reg0
  {
    hide HistoryOk;
    hide WaitsOk;
    hide ReadyOk;
    hide SendersOk;
    hide Effect;
    hide Sched;
    EffectOk(w, e);
    var w1 := Effect(w, e);
    if e.Syscall? || e.Tick? {
      SchedWorld(w1);
      SchedKeeps(w1.k);
    }
  }

  // ----- who runs next -----

  /** The ready queues with a process in front of the others of its priority, or as they are. */
  function Front(k: Kernel, p: int): (rq: seq<seq<int>>)
    requires Shape(k) && p < NPROC
    ensures |rq| == NUM_QUEUES
  {
    if p < 0 then k.rq else var j := k.ps[p].priority; k.rq[j := [p] + k.rq[j]]
  }

  /**
   From kernel k, with these ready queues: the process that was running is put
   back if it can go on. If it has used up its ticks it goes behind all others,
   and a user process one queue lower if there is one; otherwise it goes in front.
   Then the head of the highest queue runs, with a full quantum if it had nothing
   left.
   */
  ghost predicate Rescheduled(k: Kernel, rq: seq<seq<int>>, goesOn: bool, ticks: int, k': Kernel)
    requires Shape(k) && 0 <= k.cur < NPROC && |rq| == NUM_QUEUES
  {
    var c, x := k.cur, k.ps[k.cur];
    var used := goesOn && ticks <= 0;
    var j := if used && x.user && x.priority > 0 then x.priority - 1 else x.priority;
    var rq1 := if !goesOn then rq else rq[j := if used then rq[j] + [c] else [c] + rq[j]];
    var q := Highest(rq1, MAX_PRIORITY);
    && q != NULL && k'.cur == rq1[q][0] && k'.rq == rq1[q := rq1[q][1..]] && |k'.ps| == NPROC
    && (forall p :: 0 <= p < NPROC ==> k'.ps[p].priority == if p == c then j else k.ps[p].priority)
    && forall p :: 0 <= p < NPROC ==> k'.ps[p].ticksLeft == Refilled(k, p, ticks, k'.cur)
  }

  function Refilled(k: Kernel, p: int, ticks: int, next: int): int
    requires 0 <= p < |k.ps|
  {
    var left := if p == k.cur then ticks else k.ps[p].ticksLeft;
    if p == next && left <= 0 then k.ps[p].quantum else left
  }

  /** What an effect leaves alone. */
  ghost predicate SameRest(k: Kernel, k1: Kernel) {
    && |k.ps| == |k1.ps| == NPROC && k1.cur == k.cur
    && forall p :: 0 <= p < NPROC ==>
         k1.ps[p].priority == k.ps[p].priority && k1.ps[p].user == k.ps[p].user &&
         k1.ps[p].quantum == k.ps[p].quantum &&
         (p != k.cur ==> k1.ps[p].ticksLeft == k.ps[p].ticksLeft)
  }

  lemma SchedIs(k: Kernel, k1: Kernel)
    requires Shape(k) && 0 <= k.cur < NPROC && SameRest(k, k1) && Shape(k1) && Shape(Requeue(k1))
    requires var rq := Requeue(k1).rq; var q := Highest(rq, MAX_PRIORITY); q != NULL && 0 <= rq[q][0] < NPROC
    ensures Rescheduled(k, k1.rq, k1.ps[k.cur].state == RUNNABLE, k1.ps[k.cur].ticksLeft, Sched(k1))
  {
    hide Highest;
  }

  /** A call or a tick ends with this. */
  lemma NextRuns(w: World, e: Event, k1: Kernel)
    requires Inv(w) && May(w, e) && (e.Syscall? || e.Tick?)
    requires w.k.sq[w.k.cur] != [] ==> 0 <= w.k.sq[w.k.cur][0] < NPROC
    requires e.Syscall? ==> w.k.cur < |Perform(w, e.op).0.k.ps|
    requires k1 == Effect(w, e).k && SameRest(w.k, k1)
    ensures |k1.rq| == NUM_QUEUES
    ensures Rescheduled(w.k, k1.rq, k1.ps[w.k.cur].state == RUNNABLE, k1.ps[w.k.cur].ticksLeft, Next(w, e).k)
  {
    hide HistoryOk;
    hide WaitsOk;
    hide ReadyOk;
    hide SendersOk;
    hide Effect;
    hide Sched;
    hide Rescheduled;
    EffectOk(w, e);
    SchedWorld(Effect(w, e));
    SchedIs(w.k, k1);
  }

  /** A process finds nothing changed. */
  ghost predicate Untouched(w: World, w': World, p: int)
    requires 0 <= p < |w.k.ps| && p < |w'.k.ps|
  {
    w'.k.ps[p].state == w.k.ps[p].state && w'.k.ps[p].msg == w.k.ps[p].msg && w'.k.ps[p].reg0 == w.k.ps[p].reg0
  }

  // ----- sending -----

  function SendCall(dest: int, m: Message, rec: bool, direct: bool): Event {
    Syscall(if rec then SendRec(dest, m) else Send(dest, m), direct)
  }

  /** Whether do_send takes a message for dest: there is such a process, and it is not waiting to send to the caller. */
  predicate Takes(k: Kernel, dest: int)
    requires Shape(k) && 0 <= k.cur < NPROC
  {
    var d := GetProc(k, dest);
    d != NULL && !(k.ps[d].state.sending && d in k.sq[k.cur])
  }

  /** One entry has been added: from c to d, with message m, received already or not. */
  ghost predicate Logged(w: World, w': World, c: int, d: int, m: Message, received: bool) {
    w'.log == w.log + [Entry(c, d, m, if received then Taken(|w.got|) else Waiting)]
  }

  /** A process that was waiting runs again, with this message and this result. */
  ghost predicate Woken(k: Kernel, d: int, m: Message, result: int) {
    0 <= d < |k.ps| && k.ps[d].state == RUNNABLE && k.ps[d].msg == m && k.ps[d].reg0 == result
  }

  /** The state of a sender whose message is received at once, or waits. */
  function SenderState(rec: bool, received: bool): State {
    State(!received, rec, false, 0)
  }

  lemma SendEffect(w: World, dest: int, m: Message, rec: bool)
    requires Shape(w.k) && Ready(w.k, w.k.cur) && GetProc(w.k, dest) != w.k.cur
    ensures var c, d := w.k.cur, GetProc(w.k, dest); var r := SendOp(w, c, dest, m, rec);
            && SameRest(w.k, r.0.k) && r.0.k.ps[c].ticksLeft == w.k.ps[c].ticksLeft && r.0.k.ps[c].msg == m
            && (forall p :: 0 <= p < NPROC && p != c && p != d ==> r.0.k.ps[p] == w.k.ps[p])
            && if Takes(w.k, dest) then
                 var received := w.k.ps[d].state == RECEIVING;
                 && r.1 == 0 && Logged(w, r.0, c, d, m, received) && r.0.k.ps[c].state == SenderState(rec, received)
                 && r.0.k.rq == Front(w.k, if received then d else NULL)
                 && if received then r.0.k.sq == w.k.sq && Woken(r.0.k, d, m, m.kind)
                    else r.0.k.sq == w.k.sq[d := [c] + w.k.sq[d]] && r.0.k.ps[d] == w.k.ps[d]
               else
                 && r.0.log == w.log && r.1 == (if d == NULL then -ESRCH else -EDEADLK)
                 && r.0.k.ps[c].state == RUNNABLE && r.0.k.rq == w.k.rq && r.0.k.sq == w.k.sq
                 && (d != NULL ==> r.0.k.ps[d] == w.k.ps[d])
  {
  }

  /** What a call of send does to the caller, the process asked for and the queue of senders there. */
  ghost predicate Sent(w: World, w': World, d: int, m: Message, rec: bool)
    requires |w.k.ps| == |w'.k.ps| == |w.k.sq| == NPROC && 0 <= w.k.cur < NPROC && 0 <= d < NPROC
  {
    var c, received := w.k.cur, w.k.ps[d].state == RECEIVING;
    && Logged(w, w', c, d, m, received) && w'.k.ps[c].state == SenderState(rec, received)
    && if received then w'.k.sq == w.k.sq && Woken(w'.k, d, m, m.kind)
       else w'.k.sq == w.k.sq[d := [c] + w.k.sq[d]] && w'.k.ps[d].state == w.k.ps[d].state && w'.k.ps[c].msg == m
  }

  /**
   A send that is taken adds exactly one entry to the history: from the caller, to
   the process asked for, with the kind and the body that were passed and the
   caller's own number as its source. A receiver that was waiting has the
   message; otherwise the caller is in front of those who wait there, blocked. A
   send that is refused adds nothing, and the caller goes on with the error.
   */
  lemma SendLogs(w: World, dest: int, m: Message, rec: bool, direct: bool)
    requires Inv(w) && May(w, SendCall(dest, m, rec, direct))
    ensures var c, d, w' := w.k.cur, GetProc(w.k, dest), Next(w, SendCall(dest, m, rec, direct));
            && (forall p :: 0 <= p < NPROC && p != c && p != d ==> Untouched(w, w', p))
            && if Takes(w.k, dest) then
              && d == dest + SYSTEM && Sent(w, w', d, Message(c - SYSTEM, m.kind, m.body), rec)
              && (!direct ==> w'.k.ps[c].reg0 == 0)
            else
              && w'.log == w.log && w'.k.sq == w.k.sq && w'.k.ps[c].state == RUNNABLE
              && w'.k.ps[c].reg0 == if d == NULL then -ESRCH else -EDEADLK
  {
    hide Inv;
    hide Next;
    hide SendOp;
    ReceiveHead(w);
    NextKeeps(w, SendCall(dest, m, rec, direct));
    SendEffect(w, dest, m.(src := w.k.cur - SYSTEM), rec);
  }

  /** Who runs after a send: a receiver that was waiting is put in front, and the caller back unless it is blocked. */
  lemma SendRuns(w: World, dest: int, m: Message, rec: bool, direct: bool)
    requires Inv(w) && May(w, SendCall(dest, m, rec, direct))
    ensures var d := GetProc(w.k, dest);
            var received := Takes(w.k, dest) && w.k.ps[d].state == RECEIVING;
            Rescheduled(w.k, Front(w.k, if received then d else NULL), !Takes(w.k, dest) || (received && !rec),
                        w.k.ps[w.k.cur].ticksLeft, Next(w, SendCall(dest, m, rec, direct)).k)
  {
    hide Inv;
    hide Next;
    hide SendOp;
    hide Rescheduled;
    var e := SendCall(dest, m, rec, direct);
    ReceiveHead(w);
    NextKeeps(w, e);
    SendEffect(w, dest, m.(src := w.k.cur - SYSTEM), rec);
    NextRuns(w, e, Effect(w, e).k);
  }

  // ----- who messages are from -----

  /** No other event adds an entry. */
  lemma OthersLogNone(w: World, e: Event)
    requires Inv(w) && May(w, e) && !(e.Syscall? && (e.op.Send? || e.op.SendRec?))
    ensures |Next(w, e).log| == |w.log|
  {
    hide Inv;
    hide Next;
    hide DoReceive;
    ReceiveHead(w);
    NextKeeps(w, e);
  }

  /** Every entry from number n on names its sender. */
  ghost predicate Stamped(w: World, n: nat) {
    forall id :: n <= id < |w.log| ==> w.log[id].m.src == w.log[id].src - SYSTEM
  }

  lemma StampedNext(w: World, e: Event, n: nat)
    requires Inv(w) && May(w, e) && Stamped(w, n)
    ensures Stamped(Next(w, e), n)
  {
    hide Inv;
    hide Next;
    NextGrows(w, e);
    if e.Syscall? && (e.op.Send? || e.op.SendRec?) {
      ReceiveHead(w);
      SendLogs(w, e.op.dest, e.op.m, e.op.SendRec?, e.direct);
      assert e == SendCall(e.op.dest, e.op.m, e.op.SendRec?, e.direct);
    } else {
      OthersLogNone(w, e);
    }
  }

  lemma {:induction false} StampedAfter(w: World, es: seq<Event>, n: nat)
    requires Inv(w) && Stamped(w, n)
    ensures Stamped(After(w, es), n)
    decreases |es|
  {
    hide Stamped;
    hide Next;
    if es != [] {
      if May(w, es[0]) {
        StampedNext(w, es[0], n);
      }
      StampedAfter(if May(w, es[0]) then Next(w, es[0]) else w, es[1..], n);
    }
  }

  /**
   In every world of every run, each message accepted since the start names its
   sender, and so does each such message where it was received.
   */
  lemma SendersNamed(w0: World, es: seq<Event>)
    requires Inv(w0)
    ensures var w := After(w0, es);
            && (forall id :: |w0.log| <= id < |w.log| ==> w.log[id].m.src == w.log[id].src - SYSTEM)
            && forall i :: 0 <= i < |w.got| && w.got[i].id >= |w0.log| ==>
                 w.got[i].id < |w.log| && w.got[i].m.src == w.log[w.got[i].id].src - SYSTEM
  {
    hide After;
    var w := After(w0, es);
    StampedAfter(w0, es, |w0.log|);
    forall i | 0 <= i < |w.got| && w.got[i].id >= |w0.log|
      ensures w.got[i].id < |w.log| && w.got[i].m.src == w.log[w.got[i].id].src - SYSTEM
    {
      assert DeliveryOk(w, i);
    }
  }

  // ----- notifications and replies -----

  /** The process that a notification to dest wakes, or NULL. */
  function Notified(k: Kernel, dest: int): (d: int)
    requires |k.ps| == NPROC
    ensures d < NPROC
  {
    var d := GetProc(k, dest);
    if d != NULL && k.ps[d].state == RECEIVING then d else NULL
  }

  lemma NotifyEffect(w: World, src: int, dest: int, m: Message)
    requires Shape(w.k) && 0 <= src < NPROC
    ensures var d, d1, r := GetProc(w.k, dest), Notified(w.k, dest), NotifyOp(w, src, dest, m);
            && SameRest(w.k, r.0.k) && r.0.log == w.log && r.0.got == w.got
            && r.0.k.sq == w.k.sq && r.0.k.rq == Front(w.k, d1)
            && r.1 == (if d == NULL then -ESRCH else if w.k.ps[d].state.zombie then -EINVAL else 0)
            && (d1 != NULL ==> Woken(r.0.k, d1, m, if m.kind < 0 then -1 else m.kind))
            && (forall p :: 0 <= p < NPROC && p != d1 && p != src ==> r.0.k.ps[p] == w.k.ps[p])
            && (src != d1 ==> r.0.k.ps[src] == w.k.ps[src].(msg := r.0.k.ps[src].msg))
            && forall p :: 0 <= p < NPROC ==> r.0.k.ps[p].ticksLeft == w.k.ps[p].ticksLeft
  {
  }

  /**
   A notification reaches a process that waits for one, which finds the message
   with the caller's number and the kind as its result, or -1 if that is
   negative, and is put in front; no history is made of it. The caller goes on,
   with an error exactly if there is no such process or it has ended.
   */
  lemma NotifyReaches(w: World, dest: int, m: Message)
    requires Inv(w) && May(w, Syscall(Notify(dest, m), false))
    ensures var c, w' := w.k.cur, Next(w, Syscall(Notify(dest, m), false));
            var d, d1 := GetProc(w.k, dest), Notified(w.k, dest);
            && w'.log == w.log && w'.got == w.got && w'.k.sq == w.k.sq && d1 != c && w'.k.ps[c].state == RUNNABLE
            && w'.k.ps[c].reg0 == (if d == NULL then -ESRCH else if w.k.ps[d].state.zombie then -EINVAL else 0)
            && (d1 != NULL ==> Woken(w'.k, d1, Message(c - SYSTEM, m.kind, m.body), if m.kind < 0 then -1 else m.kind))
            && (forall p :: 0 <= p < NPROC && p != d1 && p != c ==> Untouched(w, w', p))
            && Rescheduled(w.k, Front(w.k, d1), true, w.k.ps[c].ticksLeft, w'.k)
  {
    hide Inv;
    hide Next;
    hide NotifyOp;
    hide Rescheduled;
    var e := Syscall(Notify(dest, m), false);
    ReceiveHead(w);
    NextKeeps(w, e);
    NotifyEffect(w, w.k.cur, dest, m.(src := w.k.cur - SYSTEM));
    NextRuns(w, e, Effect(w, e).k);
  }

  /** The reply of the system task, which stays running, to a process that waits for one and for nothing else. */
  lemma ReplyReaches(w: World, dest: int, m: Message)
    requires Inv(w) && May(w, Reply(dest, m))
    ensures var d1, w' := Notified(w.k, dest), Next(w, Reply(dest, m));
            && w'.log == w.log && w'.got == w.got && w'.k.sq == w.k.sq && w'.k.cur == w.k.cur == SYSTEM
            && (d1 != NULL ==> Woken(w'.k, d1, m, if m.kind < 0 then -1 else m.kind))
            && w'.k.rq == Front(w.k, d1)
            && forall p :: 0 <= p < NPROC && p != d1 && p != SYSTEM ==> Untouched(w, w', p)
  {
    hide Inv;
    hide NotifyOp;
    ReceiveHead(w);
    NextKeeps(w, Reply(dest, m));
    NotifyEffect(w, SYSTEM, dest, m);
  }

  // ----- receiving -----

  /** A process that receives while nobody waits to send to it is blocked. */
  lemma ReceiveBlocks(w: World, m: Message)
    requires Inv(w) && May(w, Syscall(Receive(m), false)) && w.k.sq[w.k.cur] == []
    ensures var c, w' := w.k.cur, Next(w, Syscall(Receive(m), false));
            && w'.log == w.log && w'.got == w.got && w'.k.sq == w.k.sq && w'.k.ps[c].state == RECEIVING
            && (forall p :: 0 <= p < NPROC && p != c ==> Untouched(w, w', p))
            && Rescheduled(w.k, w.k.rq, false, w.k.ps[c].ticksLeft, w'.k)
  {
    hide Inv;
    hide Next;
    hide Rescheduled;
    var e := Syscall(Receive(m), false);
    ReceiveHead(w);
    NextKeeps(w, e);
    NextRuns(w, e, Effect(w, e).k);
  }

  /** The first sender of the running process, if all it waits for is to be received. */
  function Freed(k: Kernel): (p: int)
    requires Shape(k) && 0 <= k.cur < NPROC && k.sq[k.cur] != [] && 0 <= k.sq[k.cur][0] < NPROC
    ensures p < NPROC
  {
    var p := k.sq[k.cur][0];
    if k.ps[p].state.(sending := false) == RUNNABLE then p else NULL
  }

  /**
   A process that receives finds the message of its first sender, with result 0,
   and goes on. The sender does not wait to send any more; it is put in front if
   it waits for nothing else.
   */
  lemma ReceiveTakes(w: World, m: Message)
    requires Inv(w) && May(w, Syscall(Receive(m), false)) && w.k.sq[w.k.cur] != []
    ensures 0 <= w.k.sq[w.k.cur][0] < NPROC
    ensures var c, w' := w.k.cur, Next(w, Syscall(Receive(m), false)); var p := w.k.sq[c][0];
            && w'.k.ps[c].msg == w.k.ps[p].msg && w'.k.ps[c].reg0 == 0 && w'.k.ps[c].state == RUNNABLE
            && w'.k.sq == w.k.sq[c := w.k.sq[c][1..]] && w'.k.ps[p].state == w.k.ps[p].state.(sending := false)
            && (forall q :: 0 <= q < NPROC && q != c && q != p ==> Untouched(w, w', q))
            && Rescheduled(w.k, Front(w.k, Freed(w.k)), true, w.k.ps[c].ticksLeft, w'.k)
  {
    hide HistoryOk;
    hide ReadyOk;
    hide SendersOk;
    hide Next;
    hide Rescheduled;
    var e := Syscall(Receive(m), false);
    NextKeeps(w, e);
    FirstSender(w, w.k.cur);
    AcceptFacts(w.k, w.k.cur);
    NextRuns(w, e, Effect(w, e).k);
  }

  /** A call of an operation that there is not is refused, and does nothing else. */
  lemma UnknownRefused(w: World)
    requires Inv(w) && May(w, Syscall(Unknown, false))
    ensures var c, w' := w.k.cur, Next(w, Syscall(Unknown, false));
            && w'.log == w.log && w'.got == w.got && w'.k.sq == w.k.sq
            && w'.k.ps[c].reg0 == -EINVAL && w'.k.ps[c].state == RUNNABLE
            && (forall p :: 0 <= p < NPROC && p != c ==> Untouched(w, w', p))
            && Rescheduled(w.k, w.k.rq, true, w.k.ps[c].ticksLeft, w'.k)
  {
    hide Inv;
    hide Next;
    hide Rescheduled;
    var e := Syscall(Unknown, false);
    ReceiveHead(w);
    NextKeeps(w, e);
    NextRuns(w, e, Effect(w, e).k);
  }

  // ----- ticks -----

  /**
   A tick takes one from the running process, which is then put back and demoted
   if it has used up its ticks, and whose successor has a full quantum if it had
   nothing left.
   */
  lemma TickDemotes(w: World)
    requires Inv(w)
    ensures var w' := Next(w, Tick);
            && w'.log == w.log && w'.got == w.got && w'.k.sq == w.k.sq
            && (forall p :: 0 <= p < NPROC ==> Untouched(w, w', p))
            && Rescheduled(w.k, w.k.rq, true, w.k.ps[w.k.cur].ticksLeft - 1, w'.k)
  {
    hide Inv;
    hide Next;
    hide Rescheduled;
    ReceiveHead(w);
    NextKeeps(w, Tick);
    NextRuns(w, Tick, Effect(w, Tick).k);
  }

  /** A rebalancing gives every user process the default priority and changes nothing else, nor any queue. */
  lemma RebalanceResets(w: World)
    requires Inv(w)
    ensures var w' := Next(w, Rebalance);
            && w'.log == w.log && w'.got == w.got
            && w'.k.sq == w.k.sq && w'.k.rq == w.k.rq && w'.k.cur == w.k.cur && |w'.k.ps| == NPROC
            && forall p :: 0 <= p < NPROC ==>
                 w'.k.ps[p] ==
                 if INIT <= p && w.k.ps[p].inUse then w.k.ps[p].(priority := DEFAULT_PRIORITY) else w.k.ps[p]
  {
    hide Inv;
    ReceiveHead(w);
    EffectOk(w, Rebalance);
  }
}
