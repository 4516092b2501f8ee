/**
 Message passing and scheduling as steps on the kernel's state: the process
 table without its links, the ready queues and the queues of blocked senders.
 Every step is one kernel operation taken as a whole.
 */
module KernelSteps {

  /** Slots of the process table: IDLE, PARALLEL, SYSTEM and nine user processes. */
  const NPROC := 12
  const IDLE := 0
  const PARALLEL := 1
  const SYSTEM := 2
  const INIT := 3

  const NUM_QUEUES := 5
  const MAX_PRIORITY := 4
  const DEFAULT_PRIORITY := 3

  const NULL := -1

  const ESRCH := 3
  const EINVAL := 22
  const EDEADLK := 35

  /** The type of a message doubles as the result of a reply. */
  datatype Message = Message(src: int, kind: int, body: seq<int>)

  /** Why a process does not run; the bits beside sending and receiving are taken together. */
  datatype State = State(sending: bool, receiving: bool, zombie: bool, rest: nat)

  const RUNNABLE := State(false, false, false, 0)
  const RECEIVING := State(false, true, false, 0)

  /** A process: msg is what its message pointer points to. */
  datatype Proc = Proc(
    inUse: bool, user: bool, state: State, msg: Message,
    priority: nat, quantum: int, ticksLeft: int, reg0: int)

  datatype Kernel = Kernel(ps: seq<Proc>, rq: seq<seq<int>>, sq: seq<seq<int>>, cur: int)

  predicate Shape(k: Kernel) {
    && |k.ps| == NPROC && |k.rq| == NUM_QUEUES && |k.sq| == NPROC
    && (k.cur == NULL || 0 <= k.cur < NPROC)
    && forall p :: 0 <= p < NPROC ==> k.ps[p].priority < NUM_QUEUES
  }

  predicate InUse(k: Kernel, p: int)
    requires |k.ps| == NPROC
  {
    0 <= p < NPROC && k.ps[p].inUse
  }

  predicate Ready(k: Kernel, p: int)
    requires |k.ps| == NPROC
  {
    InUse(k, p) && k.ps[p].state == RUNNABLE
  }

  predicate Sending(k: Kernel, p: int)
    requires |k.ps| == NPROC
  {
    InUse(k, p) && k.ps[p].state.sending
  }

  /** The slot of a process number, as get_proc checks it; NULL if there is no such process. */
  function GetProc(k: Kernel, nr: int): (p: int)
    requires |k.ps| == NPROC
    ensures p != NULL ==> InUse(k, p) && p == nr + SYSTEM
  {
    if -3 < nr <= 9 && k.ps[nr + SYSTEM].inUse then nr + SYSTEM else NULL
  }

  function SetProc(k: Kernel, p: int, x: Proc): Kernel
    requires 0 <= p < |k.ps|
  {
    k.(ps := k.ps[p := x])
  }

  function SetState(k: Kernel, p: int, s: State): Kernel
    requires 0 <= p < |k.ps|
  {
    SetProc(k, p, k.ps[p].(state := s))
  }

  function EnqueueHead(k: Kernel, p: int): Kernel
    requires Shape(k) && 0 <= p < NPROC
  {
    var q := k.ps[p].priority;
    k.(rq := k.rq[q := [p] + k.rq[q]])
  }

  function EnqueueTail(k: Kernel, p: int): Kernel
    requires Shape(k) && 0 <= p < NPROC
  {
    var q := k.ps[p].priority;
    k.(rq := k.rq[q := k.rq[q] + [p]])
  }

  // ----- message passing -----

  /** Hand a message to a process that waits for one and for nothing else. */
  function Deliver(k: Kernel, d: int, m: Message, reply: int): Kernel
    requires Shape(k) && 0 <= d < NPROC
  {
    EnqueueHead(SetProc(k, d, k.ps[d].(msg := m, state := RUNNABLE, reg0 := reply)), d)
  }

  /** Block src until d takes its message. */
  function Block(k: Kernel, src: int, d: int): Kernel
    requires Shape(k) && 0 <= src < NPROC && 0 <= d < NPROC
  {
    SetState(k, src, k.ps[src].state.(sending := true)).(sq := k.sq[d := [src] + k.sq[d]])
  }

  function SetMsg(k: Kernel, p: int, m: Message): Kernel
    requires 0 <= p < |k.ps|
  {
    SetProc(k, p, k.ps[p].(msg := m))
  }

  datatype Outcome = Outcome(k: Kernel, ret: int)

  function DoSend(k: Kernel, src: int, dest: int, m: Message): Outcome
    requires Shape(k) && 0 <= src < NPROC
  {
    var k1 := SetMsg(k, src, m);
    var d := GetProc(k1, dest);
    if d == NULL then Outcome(k1, -ESRCH)
    else if k1.ps[d].state.sending && d in k1.sq[src] then Outcome(k1, -EDEADLK)
    else if k1.ps[d].state == RECEIVING then Outcome(Deliver(k1, d, m, m.kind), 0)
    else Outcome(Block(k1, src, d), 0)
  }

  /** Take the message of the first sender of c. */
  function Accept(k: Kernel, c: int): Kernel
    requires Shape(k) && 0 <= c < NPROC && k.sq[c] != [] && 0 <= k.sq[c][0] < NPROC
  {
    var p := k.sq[c][0];
    var k1 := SetMsg(k.(sq := k.sq[c := k.sq[c][1..]]), c, k.ps[p].msg);
    var k2 := SetState(k1, p, k1.ps[p].state.(sending := false));
    if k2.ps[p].state == RUNNABLE then EnqueueHead(k2, p) else k2
  }

  function DoReceive(k: Kernel, m: Message): Kernel
    requires Shape(k) && 0 <= k.cur < NPROC
    requires k.sq[k.cur] != [] ==> 0 <= k.sq[k.cur][0] < NPROC
  {
    if k.sq[k.cur] != [] then Accept(k, k.cur)
    else SetState(SetMsg(k, k.cur, m), k.cur, k.ps[k.cur].state.(receiving := true))
  }

  /** The result register of a replied-to process; a negative result becomes -1. */
  function ReplyValue(m: Message): int {
    if m.kind < 0 then -1 else m.kind
  }

  function DoNotify(k: Kernel, src: int, dest: int, m: Message): Outcome
    requires Shape(k) && 0 <= src < NPROC
  {
    var d := GetProc(k, dest);
    if d == NULL then Outcome(k, -ESRCH)
    else if k.ps[d].state.zombie then Outcome(k, -EINVAL)
    else if k.ps[d].state == RECEIVING then Outcome(Deliver(k, d, m, ReplyValue(m)), 0)
    else Outcome(if k.ps[src].user then SetMsg(k, src, m) else k, 0)
  }

  // ----- scheduling -----

  /** Put the current process back in line, one queue lower if it used up its ticks. */
  function Requeue(k: Kernel): Kernel
    requires Shape(k)
  {
    if k.cur == NULL || k.ps[k.cur].state != RUNNABLE then k
    else
      var x := k.ps[k.cur];
      if x.ticksLeft > 0 then EnqueueHead(k, k.cur)
      else if x.user && x.priority > 0 then
        EnqueueTail(SetProc(k, k.cur, x.(priority := x.priority - 1)), k.cur)
      else EnqueueTail(k, k.cur)
  }

  /** The highest queue up to i that is not empty, or NULL. */
  function Highest(rq: seq<seq<int>>, i: int): (q: int)
    requires NULL <= i < |rq|
    ensures q == NULL ==> forall j :: 0 <= j <= i ==> rq[j] == []
    ensures q != NULL ==> 0 <= q <= i && rq[q] != [] && forall j :: q < j <= i ==> rq[j] == []
    decreases i + 1
  {
    if i < 0 then NULL else if rq[i] != [] then i else Highest(rq, i - 1)
  }

  /** Take the head of the highest ready queue that is not empty and run it. */
  function Dispatch(k: Kernel): Kernel
    requires Shape(k)
    requires var q := Highest(k.rq, MAX_PRIORITY); q != NULL && 0 <= k.rq[q][0] < NPROC
  {
    var q := Highest(k.rq, MAX_PRIORITY);
    var p := k.rq[q][0];
    var x := k.ps[p];
    SetProc(k.(rq := k.rq[q := k.rq[q][1..]], cur := p), p,
            if x.ticksLeft <= 0 then x.(ticksLeft := x.quantum) else x)
  }

  // ----- what the queues hold -----

  /** All entries of some queues. */
  function All(qs: seq<seq<int>>): multiset<int> {
    if qs == [] then multiset{} else multiset(qs[0]) + All(qs[1..])
  }

  lemma {:induction false} AllUpdate(qs: seq<seq<int>>, i: nat, q: seq<int>)
    requires i < |qs|
    ensures All(qs[i := q]) == All(qs) - multiset(qs[i]) + multiset(q)
    ensures multiset(qs[i]) <= All(qs)
    decreases |qs|
  {
    if i > 0 {
      AllUpdate(qs[1..], i - 1, q);
      assert qs[i := q][1..] == qs[1..][i - 1 := q];
    } else {
      assert qs[i := q][1..] == qs[1..];
    }
  }

  lemma AllPush(qs: seq<seq<int>>, i: nat, p: int)
    requires i < |qs|
    ensures All(qs[i := [p] + qs[i]]) == All(qs) + multiset{p}
    ensures All(qs[i := qs[i] + [p]]) == All(qs) + multiset{p}
  {
    hide All;
    AllUpdate(qs, i, [p] + qs[i]);
    AllUpdate(qs, i, qs[i] + [p]);
    OneMore(All(qs), qs[i], p);
  }

  lemma OneMore(all: multiset<int>, q: seq<int>, p: int)
    requires multiset(q) <= all
    ensures all - multiset(q) + multiset([p] + q) == all + multiset{p}
    ensures all - multiset(q) + multiset(q + [p]) == all + multiset{p}
  {
  }

  lemma AllPop(qs: seq<seq<int>>, i: nat)
    requires i < |qs| && qs[i] != []
    ensures qs[i][0] in All(qs)
    ensures All(qs[i := qs[i][1..]]) == All(qs) - multiset{qs[i][0]}
  {
    assert qs[i] == [qs[i][0]] + qs[i][1..];
    AllUpdate(qs, i, qs[i][1..]);
  }

  lemma AllHolds(qs: seq<seq<int>>, i: nat, p: int)
    requires i < |qs| && p in qs[i]
    ensures p in All(qs)
  {
    AllUpdate(qs, i, qs[i]);
  }

  lemma {:induction false} AllFind(qs: seq<seq<int>>, p: int) returns (i: nat)
    requires p in All(qs)
    ensures i < |qs| && p in qs[i]
    decreases |qs|
  {
    if p in qs[0] {
      i := 0;
    } else {
      i := AllFind(qs[1..], p);
      i := i + 1;
    }
  }
}
