/**
 The kernel's process table with its linked queues: a ready queue is a head, a
 tail and next links through the table, a queue of senders is a head and
 next_sender links. Every operation on the links is the step of KernelSteps
 that carries its name.
 */
module KernelTable {
  import opened KernelSteps
  import opened LinkedLists
  import opened KernelRuns
  import opened KernelSafety

  // ----- queues as links -----

  ghost predicate Queues(next: seq<int>, qs: seq<seq<int>>, hs: seq<int>) {
    && |hs| == |qs|
    && (forall p :: All(qs)[p] <= 1)
    && forall j :: 0 <= j < |qs| ==> Chained(next, qs[j], hs[j])
  }

  /** The link of a process in no queue can be anything. */
  lemma FreeLink(next: seq<int>, qs: seq<seq<int>>, hs: seq<int>, p: int, v: int)
    requires Queues(next, qs, hs) && 0 <= p < |next| && p !in All(qs)
    ensures Queues(next[p := v], qs, hs)
  {
    hide All;
    hide Chained;
    forall j | 0 <= j < |qs| ensures Chained(next[p := v], qs[j], hs[j]) {
      if p in qs[j] {
        AllHolds(qs, j, p);
        assert false;
      }
      ChainedKept(next, qs[j], hs[j], p, v);
    }
  }

  lemma PushHead(next: seq<int>, qs: seq<seq<int>>, hs: seq<int>, j: nat, p: int)
    requires Queues(next, qs, hs) && j < |qs| && 0 <= p < |next| && p !in All(qs)
    ensures Queues(next[p := hs[j]], qs[j := [p] + qs[j]], hs[j := p])
  {
    hide All;
    hide Chained;
    FreeLink(next, qs, hs, p, hs[j]);
    AllPush(qs, j, p);
    ChainedCons(next[p := hs[j]], qs[j], p);
  }

  lemma PopHead(next: seq<int>, qs: seq<seq<int>>, hs: seq<int>, j: nat)
    requires Queues(next, qs, hs) && j < |qs| && qs[j] != []
    ensures 0 <= hs[j] < |next| && hs[j] == qs[j][0]
    ensures Queues(next, qs[j := qs[j][1..]], hs[j := next[hs[j]]])
    ensures hs[j] !in All(qs[j := qs[j][1..]])
  {
    hide All;
    hide Chained;
    ChainedHead(next, qs[j], hs[j]);
    AllPop(qs, j);
  }

  lemma LastOnce(qs: seq<seq<int>>, j: nat)
    requires (forall p :: All(qs)[p] <= 1) && j < |qs| && qs[j] != []
    ensures qs[j][|qs[j]| - 1] !in qs[j][..|qs[j]| - 1]
    ensures forall k :: 0 <= k < |qs| && k != j ==> qs[j][|qs[j]| - 1] !in qs[k]
  {
    var q := qs[j];
    var last := q[|q| - 1];
    AllUpdate(qs, j, []);
    assert q == q[..|q| - 1] + [last];
    assert All(qs)[last] == 1;
    forall k | 0 <= k < |qs| && k != j ensures last !in qs[k] {
      if last in qs[k] {
        AllHolds(qs[j := []], k, last);
        assert false;
      }
    }
  }

  lemma PushTail(next: seq<int>, qs: seq<seq<int>>, hs: seq<int>, j: nat, p: int)
    requires Queues(next, qs, hs) && j < |qs| && qs[j] != [] && 0 <= p < |next| && p !in All(qs)
    ensures 0 <= qs[j][|qs[j]| - 1] < |next|
    ensures Queues(next[qs[j][|qs[j]| - 1] := p][p := NULL], qs[j := qs[j] + [p]], hs)
  {
    hide Chained;
    hide All;
    AllPush(qs, j, p);
    LastOnce(qs, j);
    var last := qs[j][|qs[j]| - 1];
    assert p !in qs[j] by {
      if p in qs[j] { AllHolds(qs, j, p); }
    }
    ChainedOn(next, qs[j], hs[j], p);
    forall k | 0 <= k < |qs| && k != j ensures Chained(next[last := p][p := NULL], qs[k], hs[k]) {
      if p in qs[k] {
        AllHolds(qs, k, p);
        assert false;
      }
      ChainedKept(next, qs[k], hs[k], last, p);
      ChainedKept(next[last := p], qs[k], hs[k], p, NULL);
    }
  }

  ghost predicate Tails(rq: seq<seq<int>>, tail: seq<int>) {
    && |tail| == |rq|
    && forall j :: 0 <= j < |rq| ==> tail[j] == if rq[j] == [] then NULL else rq[j][|rq[j]| - 1]
  }

  /** The link of a process in no queue is NULL. */
  ghost predicate Loose(next: seq<int>, queued: multiset<int>) {
    forall p :: 0 <= p < |next| && p !in queued ==> next[p] == NULL
  }

  ghost predicate ReadyLinks(next: seq<int>, rq: seq<seq<int>>, head: seq<int>, tail: seq<int>) {
    && |next| == NPROC && |rq| == |head| == NUM_QUEUES
    && Queues(next, rq, head) && Tails(rq, tail) && Loose(next, All(rq))
  }

  /** What the assertions of the queue operations check. */
  lemma Unqueued(next: seq<int>, rq: seq<seq<int>>, head: seq<int>, tail: seq<int>, j: nat, p: nat)
    requires ReadyLinks(next, rq, head, tail) && j < NUM_QUEUES && p < NPROC && p !in All(rq)
    ensures next[p] == NULL && head[j] != p && tail[j] != p
    ensures head[j] == NULL <==> rq[j] == []
  {
    assert Chained(next, rq[j], head[j]);
    if rq[j] != [] {
      AllHolds(rq, j, rq[j][0]);
      AllHolds(rq, j, rq[j][|rq[j]| - 1]);
    }
  }

  lemma EmptyHead(next: seq<int>, rq: seq<seq<int>>, head: seq<int>, tail: seq<int>, j: nat)
    requires ReadyLinks(next, rq, head, tail) && j < NUM_QUEUES && head[j] == NULL
    ensures rq[j] == []
  {
  }

  lemma HeadLinks(next: seq<int>, rq: seq<seq<int>>, head: seq<int>, tail: seq<int>, j: nat, p: nat)
    requires ReadyLinks(next, rq, head, tail) && j < NUM_QUEUES && p < NPROC && p !in All(rq)
    ensures ReadyLinks(next[p := head[j]], rq[j := [p] + rq[j]], head[j := p],
                       if head[j] == NULL then tail[j := p] else tail)
  {
    hide All;
    hide Queues;
    Unqueued(next, rq, head, tail, j, p);
    PushHead(next, rq, head, j, p);
    AllPush(rq, j, p);
    assert Loose(next[p := head[j]], All(rq) + multiset{p});
  }

  lemma TailLinks(next: seq<int>, rq: seq<seq<int>>, head: seq<int>, tail: seq<int>, j: nat, p: nat)
    requires ReadyLinks(next, rq, head, tail) && j < NUM_QUEUES && p < NPROC && p !in All(rq) && head[j] != NULL
    ensures 0 <= tail[j] < NPROC
    ensures ReadyLinks(next[tail[j] := p][p := NULL], rq[j := rq[j] + [p]], head, tail[j := p])
  {
    hide All;
    hide Queues;
    Unqueued(next, rq, head, tail, j, p);
    PushTail(next, rq, head, j, p);
    AllPush(rq, j, p);
    AllHolds(rq, j, tail[j]);
    assert Loose(next[tail[j] := p][p := NULL], All(rq) + multiset{p});
  }

  lemma DequeueLinks(next: seq<int>, rq: seq<seq<int>>, head: seq<int>, tail: seq<int>, j: nat)
    requires ReadyLinks(next, rq, head, tail) && j < NUM_QUEUES && head[j] != NULL
    ensures 0 <= head[j] < NPROC && rq[j] != [] && rq[j][0] == head[j]
    ensures head[j] == tail[j] ==> next[head[j]] == NULL
    ensures ReadyLinks(next[head[j] := NULL], rq[j := rq[j][1..]], head[j := next[head[j]]],
                       if head[j] == tail[j] then tail[j := NULL] else tail)
  {
    hide All;
    hide Queues;
    HeadIsLast(next, rq, head, tail, j);
    PopHead(next, rq, head, j);
    AllPop(rq, j);
    var p := head[j];
    FreeLink(next, rq[j := rq[j][1..]], head[j := next[p]], p, NULL);
    assert Loose(next[p := NULL], All(rq) - multiset{p});
  }

  /** The head of a queue is its tail exactly if it is alone. */
  lemma HeadIsLast(next: seq<int>, rq: seq<seq<int>>, head: seq<int>, tail: seq<int>, j: nat)
    requires ReadyLinks(next, rq, head, tail) && j < NUM_QUEUES && head[j] != NULL
    ensures rq[j] != [] && 0 <= head[j] < NPROC && (head[j] == tail[j] <==> |rq[j]| == 1)
    ensures |rq[j]| == 1 ==> next[head[j]] == NULL
  {
    hide All;
    assert Chained(next, rq[j], head[j]);
    LastOnce(rq, j);
    if |rq[j]| > 1 {
      assert rq[j][..|rq[j]| - 1][0] == head[j];
    } else {
      assert Chained(next, rq[j][1..], next[head[j]]);
    }
  }

  ghost predicate SenderLinks(nextSender: seq<int>, sq: seq<seq<int>>, senderQ: seq<int>) {
    |nextSender| == |sq| == NPROC && Queues(nextSender, sq, senderQ)
  }

  lemma SomeSender(nextSender: seq<int>, sq: seq<seq<int>>, senderQ: seq<int>, c: nat)
    requires SenderLinks(nextSender, sq, senderQ) && c < NPROC && senderQ[c] != NULL
    ensures sq[c] != [] && sq[c][0] == senderQ[c]
  {
  }

  lemma NoSender(nextSender: seq<int>, sq: seq<seq<int>>, senderQ: seq<int>, c: nat)
    requires SenderLinks(nextSender, sq, senderQ) && c < NPROC && senderQ[c] == NULL
    ensures sq[c] == []
  {
  }

  lemma SenderFacts(k: Kernel)
    requires Safe(k) && 0 <= k.cur < NPROC && k.sq[k.cur] != []
    ensures var p := k.sq[k.cur][0]; 0 <= p < NPROC && p != k.cur && p !in All(k.rq)
  {
    SenderKnown(k, k.cur, k.sq[k.cur][0]);
  }

  lemma NotQueued(k: Kernel, p: int)
    requires Safe(k) && !Sending(k, p)
    ensures p !in All(k.sq)
  {
  }

  function Nulls(n: nat): seq<int> {
    seq(n, i => NULL)
  }

  lemma NoQueues()
    ensures All(Empties(NUM_QUEUES)) == All(Empties(NPROC)) == multiset{}
    ensures ReadyLinks(Nulls(NPROC), Empties(NUM_QUEUES), Nulls(NUM_QUEUES), Nulls(NUM_QUEUES))
    ensures SenderLinks(Nulls(NPROC), Empties(NPROC), Nulls(NPROC))
  {
    BootSenders(NUM_QUEUES);
    BootSenders(NPROC);
  }

  class Table {
    var ps: seq<Proc>
    var next: seq<int>
    var senderQ: seq<int>
    var nextSender: seq<int>
    var head: seq<int>
    var tail: seq<int>
    var cur: int
    ghost var rq: seq<seq<int>>
    ghost var sq: seq<seq<int>>

    ghost function View(): Kernel
      reads this
    {
      Kernel(ps, rq, sq, cur)
    }

    ghost predicate Valid()
      reads this
    {
      && |next| == |nextSender| == |senderQ| == NPROC && |head| == |tail| == NUM_QUEUES
      && Shape(View()) && ReadyLinks(next, rq, head, tail) && SenderLinks(nextSender, sq, senderQ)
    }

    // ----- ready queues -----

    constructor ()
      ensures Valid() && View() == Boot().k.(rq := Empties(NUM_QUEUES))
    {
      hide ReadyLinks;
      hide SenderLinks;
      hide All;
      ps := Boot().k.ps;
      next, senderQ, nextSender := Nulls(NPROC), Nulls(NPROC), Nulls(NPROC);
      head, tail := Nulls(NUM_QUEUES), Nulls(NUM_QUEUES);
      cur := NULL;
      rq, sq := Empties(NUM_QUEUES), Empties(NPROC);
      new;
      NoQueues();
    }

    /** What main does before the first sched: the three tasks and init in turn. */
    method StartTasks()
      requires Valid() && View() == Boot().k.(rq := Empties(NUM_QUEUES))
      modifies `next, `head, `tail, `rq
      ensures Valid() && View() == Boot().k
    {
      hide ReadyLinks;
      hide SenderLinks;
      hide All;
      hide Shape;
      NoQueues();
      AllPush(rq, 0, IDLE);
      EnqueueTail(0, IDLE);
      AllPush(rq, 0, PARALLEL);
      EnqueueTail(0, PARALLEL);
      assert rq[0] == [IDLE, PARALLEL];
      AllPush(rq, MAX_PRIORITY, SYSTEM);
      EnqueueTail(MAX_PRIORITY, SYSTEM);
      AllPush(rq, DEFAULT_PRIORITY, INIT);
      EnqueueTail(DEFAULT_PRIORITY, INIT);
      assert rq[DEFAULT_PRIORITY] == [INIT] && rq[MAX_PRIORITY] == [SYSTEM] && rq[1] == rq[2] == [];
      assert rq == Boot().k.rq;
    }

    method EnqueueTail(j: int, p: int)
      requires Valid() && 0 <= j < NUM_QUEUES && 0 <= p < NPROC && p !in All(rq)
      modifies `next, `head, `tail, `rq
      ensures Valid() && rq == old(rq)[j := old(rq)[j] + [p]]
    {
      hide ReadyLinks;
      hide SenderLinks;
      hide All;
      Unqueued(next, rq, head, tail, j, p);
      assert next[p] == NULL && tail[j] != p;
      if head[j] == NULL {
        HeadLinks(next, rq, head, tail, j, p);
        assert rq[j] + [p] == [p] + rq[j];
        head := head[j := p];
        tail := tail[j := p];
      } else {
        TailLinks(next, rq, head, tail, j, p);
        next := next[tail[j] := p];
        tail := tail[j := p];
      }
      next := next[p := NULL];
      rq := rq[j := rq[j] + [p]];
    }

    method EnqueueHead(j: int, p: int)
      requires Valid() && 0 <= j < NUM_QUEUES && 0 <= p < NPROC && p !in All(rq)
      modifies `next, `head, `tail, `rq
      ensures Valid() && rq == old(rq)[j := [p] + old(rq)[j]]
    {
      hide ReadyLinks;
      hide SenderLinks;
      hide All;
      Unqueued(next, rq, head, tail, j, p);
      assert next[p] == NULL && head[j] != p;
      HeadLinks(next, rq, head, tail, j, p);
      if head[j] == NULL {
        next := next[p := NULL];
        head := head[j := p];
        tail := tail[j := p];
      } else {
        next := next[p := head[j]];
        head := head[j := p];
      }
      rq := rq[j := [p] + rq[j]];
    }

    method Dequeue(j: int) returns (p: int)
      requires Valid() && 0 <= j < NUM_QUEUES
      modifies `next, `head, `tail, `rq
      ensures Valid() && (p == NULL <==> old(rq)[j] == [])
      ensures p == if old(rq)[j] == [] then NULL else old(rq)[j][0]
      ensures rq == if old(rq)[j] == [] then old(rq) else old(rq)[j := old(rq)[j][1..]]
    {
      hide ReadyLinks;
      hide SenderLinks;
      hide All;
      p := head[j];
      if p == NULL {
        EmptyHead(next, rq, head, tail, j);
        return;
      }
      DequeueLinks(next, rq, head, tail, j);
      if head[j] == tail[j] {
        head := head[j := NULL];
        tail := tail[j := NULL];
      } else {
        head := head[j := next[p]];
      }
      next := next[p := NULL];
      rq := rq[j := rq[j][1..]];
    }

    // ----- message passing -----

    function GetProc(nr: int): (p: int)
      requires |ps| == NPROC
      reads this
      ensures p == KernelSteps.GetProc(View(), nr)
    {
      if -3 < nr <= 9 && ps[nr + SYSTEM].inUse then nr + SYSTEM else NULL
    }

    /** Whether p waits to send to src: the walk along the queue of senders. */
    method WaitsFor(src: int, p: int) returns (found: bool)
      requires Valid() && 0 <= src < NPROC
      ensures found <==> p in sq[src]
    {
      hide All;
      var xp := senderQ[src];
      ghost var seen, rest := [], sq[src];
      assert Chained(nextSender, rest, xp);
      while xp != NULL
        invariant sq[src] == seen + rest && p !in seen && Chained(nextSender, rest, xp)
        decreases |rest|
      {
        if xp == p {
          return true;
        }
        seen, rest := seen + [rest[0]], rest[1..];
        xp := nextSender[xp];
      }
      return false;
    }

    method Deliver(d: int, m: Message, reply: int)
      requires Valid() && Safe(View()) && 0 <= d < NPROC && ps[d].state == RECEIVING
      modifies `ps, `next, `head, `tail, `rq
      ensures Valid() && View() == KernelSteps.Deliver(old(View()), d, m, reply)
    {
      hide ReadyLinks;
      hide SenderLinks;
      hide SendersOk;
      hide NoMutualSend;
      hide All;
      ps := ps[d := ps[d].(msg := m, state := RUNNABLE, reg0 := reply)];
      EnqueueHead(ps[d].priority, d);
    }

    method Block(src: int, d: int)
      requires Valid() && 0 <= src < NPROC && 0 <= d < NPROC && src !in All(sq)
      modifies `ps, `nextSender, `senderQ, `sq
      ensures Valid() && View() == KernelSteps.Block(old(View()), src, d)
    {
      hide ReadyLinks;
      hide Queues;
      hide All;
      PushHead(nextSender, sq, senderQ, d, src);
      ps := ps[src := ps[src].(state := ps[src].state.(sending := true))];
      nextSender := nextSender[src := senderQ[d]];
      senderQ := senderQ[d := src];
      sq := sq[d := [src] + sq[d]];
    }

    /** The message pointer of a process is set before anything is checked. */
    method SetMessage(p: int, m: Message)
      requires Valid() && Safe(View()) && 0 <= p < NPROC
      modifies `ps
      ensures Valid() && Safe(View()) && View() == SetMsg(old(View()), p, m)
    {
      hide ReadyLinks;
      hide SenderLinks;
      ps := ps[p := ps[p].(msg := m)];
      Touch(old(View()), p, ps[p]);
    }

    method DoSend(src: int, dest: int, m: Message) returns (ret: int)
      requires Valid() && Safe(View()) && 0 <= src < NPROC && !Sending(View(), src)
      modifies this
      ensures Valid() && Outcome(View(), ret) == KernelSteps.DoSend(old(View()), src, dest, m)
    {
      hide ReadyLinks;
      hide SenderLinks;
      hide Safe;
      SetMessage(src, m);
      var d := GetProc(dest);
      if d == NULL {
        return -ESRCH;
      }
      if ps[d].state.sending {
        var waits := WaitsFor(src, d);
        if waits {
          return -EDEADLK;
        }
      }
      if ps[d].state == RECEIVING {
        Deliver(d, m, m.kind);
      } else {
        NotQueued(View(), src);
        Block(src, d);
      }
      return 0;
    }

    method DoReceive(m: Message) returns (ret: int)
      requires Valid() && Safe(View()) && Ready(View(), cur)
      modifies this
      ensures old(sq)[old(cur)] != [] ==> 0 <= old(sq)[old(cur)][0] < NPROC
      ensures Valid() && ret == 0 && cur == old(cur) && View() == KernelSteps.DoReceive(old(View()), m)
    {
      hide ReadyLinks;
      hide SenderLinks;
      hide Safe;
      var p := senderQ[cur];
      if p != NULL {
        Accept();
        return 0;
      }
      NoSender(nextSender, sq, senderQ, cur);
      ps := ps[cur := ps[cur].(msg := m, state := ps[cur].state.(receiving := true))];
      return 0;
    }

    /** Take the message of the first sender and let it run if nothing else holds it. */
    method Accept()
      requires Valid() && Safe(View()) && Ready(View(), cur) && senderQ[cur] != NULL
      modifies this
      ensures old(sq)[old(cur)] != [] && 0 <= old(sq)[old(cur)][0] < NPROC
      ensures Valid() && View() == KernelSteps.Accept(old(View()), old(cur))
    {
      hide ReadyLinks;
      hide Safe;
      hide All;
      var p := senderQ[cur];
      SomeSender(nextSender, sq, senderQ, cur);
      SenderFacts(View());
      PopHead(nextSender, sq, senderQ, cur);
      senderQ := senderQ[cur := nextSender[p]];
      sq := sq[cur := sq[cur][1..]];
      ps := ps[cur := ps[cur].(msg := ps[p].msg)];
      ps := ps[p := ps[p].(state := ps[p].state.(sending := false))];
      if ps[p].state == RUNNABLE {
        EnqueueHead(ps[p].priority, p);
      }
    }

    method DoNotify(src: int, dest: int, m: Message) returns (ret: int)
      requires Valid() && Safe(View()) && 0 <= src < NPROC
      modifies this
      ensures Valid() && cur == old(cur) && Outcome(View(), ret) == KernelSteps.DoNotify(old(View()), src, dest, m)
    {
      hide ReadyLinks;
      hide SenderLinks;
      hide Safe;
      var d := GetProc(dest);
      if d == NULL {
        return -ESRCH;
      }
      if ps[d].state.zombie {
        return -EINVAL;
      }
      if ps[d].state == RECEIVING {
        Deliver(d, m, ReplyValue(m));
      } else if ps[src].user {
        SetMessage(src, m);
      }
      return 0;
    }

    // ----- scheduling -----

    /** The head of the highest ready queue that is not empty. */
    method PickProc() returns (p: int)
      requires Valid()
      modifies `next, `head, `tail, `rq
      ensures Valid()
      ensures var q := Highest(old(rq), MAX_PRIORITY);
              if q == NULL then p == NULL && rq == old(rq)
              else p == old(rq)[q][0] && rq == old(rq)[q := old(rq)[q][1..]]
    {
      hide ReadyLinks;
      hide SenderLinks;
      var i := MAX_PRIORITY;
      while i >= 0
        invariant -1 <= i <= MAX_PRIORITY && Valid() && rq == old(rq)
        invariant Highest(rq, MAX_PRIORITY) == Highest(rq, i)
      {
        p := Dequeue(i);
        if p != NULL {
          return;
        }
        i := i - 1;
      }
      p := NULL;
    }

    /** The loop of sched ends after one turn: what pick_proc finds can run. */
    method Sched()
      requires Valid() && Safe(View()) && (cur == NULL || InUse(View(), cur))
      modifies this
      ensures Shape(old(View())) && Shape(Requeue(old(View())))
      ensures var old_rq := Requeue(old(View())).rq; var q := Highest(old_rq, MAX_PRIORITY);
              q != NULL && 0 <= old_rq[q][0] < NPROC
      ensures Valid() && View() == KernelRuns.Sched(old(View()))
    {
      hide ReadyLinks;
      hide SenderLinks;
      hide Safe;
      hide Requeue;
      SchedSafe(View());
      Reinsert();
      cur := PickProc();
      assert cur != NULL && ps[cur].state == RUNNABLE;
      if ps[cur].ticksLeft <= 0 {
        ps := ps[cur := ps[cur].(ticksLeft := ps[cur].quantum)];
      }
    }

    /** Put the running process back in line. */
    method Reinsert()
      requires Valid() && Safe(View()) && (cur == NULL || InUse(View(), cur))
      modifies `ps, `next, `head, `tail, `rq
      ensures Valid() && View() == Requeue(old(View()))
    {
      hide ReadyLinks;
      hide SenderLinks;
      hide SendersOk;
      hide NoMutualSend;
      hide All;
      if cur != NULL && ps[cur].state == RUNNABLE {
        if ps[cur].ticksLeft > 0 {
          EnqueueHead(ps[cur].priority, cur);
        } else {
          if ps[cur].user && ps[cur].priority > 0 {
            ps := ps[cur := ps[cur].(priority := ps[cur].priority - 1)];
          }
          EnqueueTail(ps[cur].priority, cur);
        }
      }
    }

    method RebalanceQueues()
      requires Valid()
      modifies `ps
      ensures Valid() && View() == Rebalanced(old(View()))
    {
      hide ReadyLinks;
      hide SenderLinks;
      var p := INIT;
      while p < NPROC
        invariant INIT <= p <= NPROC && |ps| == NPROC
        invariant forall i :: 0 <= i < NPROC ==>
                    ps[i] == if INIT <= i < p && old(ps)[i].inUse then old(ps)[i].(priority := DEFAULT_PRIORITY)
                    else old(ps)[i]
      {
        if ps[p].inUse {
          ps := ps[p := ps[p].(priority := DEFAULT_PRIORITY)];
        }
        p := p + 1;
      }
      assert ps == Rebalanced(old(View())).ps;
    }

    /** The clock interrupt, apart from the timers it fires. */
    method ClockHandler(ghost w: World)
      requires Valid() && Inv(w) && w.k == View()
      modifies this
      ensures Valid() && View() == Next(w, Tick).k
    {
      hide ReadyLinks;
      hide SenderLinks;
      hide Inv;
      EffectOk(w, Tick);
      ps := ps[cur := ps[cur].(ticksLeft := ps[cur].ticksLeft - 1)];
      Sched();
    }

    /** A trap into the kernel, for a call that may be made in the world at hand. */
    method SyscallHandler(op: Op, direct: bool, ghost w: World)
      requires Valid() && Inv(w) && w.k == View() && May(w, Syscall(op, direct))
      modifies this
      ensures Valid() && View() == Next(w, Syscall(op, direct)).k
    {
      hide ReadyLinks;
      hide SenderLinks;
      hide Perform;
      hide Requeue;
      hide Highest;
      hide KernelRuns.Sched;
      EffectOk(w, Syscall(op, direct));
      var ret := Decode(op, w);
      if !direct || ret < 0 {
        ps := ps[cur := ps[cur].(reg0 := ret)];
      }
      Sched();
    }

    method Decode(op: Op, ghost w: World) returns (ret: int)
      requires Valid() && Inv(w) && w.k == View() && May(w, Syscall(op, false))
      modifies this
      ensures w.k.sq[w.k.cur] != [] ==> 0 <= w.k.sq[w.k.cur][0] < NPROC
      ensures Valid() && cur == old(cur) && View() == Perform(w, op).0.k && ret == Perform(w, op).1
    {
      hide ReadyLinks;
      hide SenderLinks;
      hide WorldOk;
      hide Safe;
      hide SendOp;
      hide KernelSteps.DoNotify;
      hide KernelSteps.DoReceive;
      ReceiveHead(w);
      match op
      case Send(dest, m) =>
        ret := SendCall(dest, m.(src := cur - SYSTEM), false, w);
      case SendRec(dest, m) =>
        ret := SendCall(dest, m.(src := cur - SYSTEM), true, w);
      case Receive(m) =>
        ret := DoReceive(m.(src := cur - SYSTEM));
      case Notify(dest, m) =>
        ret := DoNotify(cur, dest, m.(src := cur - SYSTEM));
      case Unknown =>
        ret := -EINVAL;
    }

    method SendCall(dest: int, m: Message, rec: bool, ghost w: World) returns (ret: int)
      requires Valid() && Inv(w) && w.k == View() && cur != IDLE
      modifies this
      ensures Valid() && cur == old(cur)
      ensures View() == SendOp(w, old(cur), dest, m, rec).0.k && ret == SendOp(w, old(cur), dest, m, rec).1
    {
      hide ReadyLinks;
      hide SenderLinks;
      hide Safe;
      if rec {
        ps := ps[cur := ps[cur].(state := ps[cur].state.(receiving := true))];
        Touch(w.k, cur, ps[cur]);
      }
      ret := DoSend(cur, dest, m);
      if ret < 0 {
        ps := ps[cur := ps[cur].(state := ps[cur].state.(receiving := false))];
      }
    }

    // ----- whole runs -----

    /** Whether an event can happen now. */
    method Allowed(e: Event, ghost w: World) returns (ok: bool)
      requires Valid() && w.k == View()
      ensures ok <==> May(w, e)
    {
      match e
      case Syscall(op, direct) =>
        if cur == IDLE || (direct && !(op.SendRec? && op.dest == 0)) || (op.SendRec? && cur == SYSTEM) {
          return false;
        }
        if op.Send? || op.SendRec? {
          var d := GetProc(op.dest);
          return d != cur;
        }
        return true;
      case Reply(dest, m) =>
        return cur == SYSTEM;
      case _ =>
        return true;
    }

    /** One event that can happen. */
    method Handle(e: Event, ghost w: World)
      requires Valid() && Inv(w) && w.k == View() && May(w, e)
      modifies this
      ensures Valid() && View() == Next(w, e).k
    {
      hide ReadyLinks;
      hide SenderLinks;
      hide HistoryOk;
      hide WaitsOk;
      hide ReadyOk;
      hide SendersOk;
      hide KernelSteps.DoNotify;
      EffectOk(w, e);
      match e
      case Syscall(op, direct) =>
        SyscallHandler(op, direct, w);
      case Reply(dest, m) =>
        var ret := DoNotify(SYSTEM, dest, m);
      case Tick =>
        ClockHandler(w);
      case Rebalance =>
        RebalanceQueues();
    }

    /** Any sequence of events, played on the links: those that cannot happen are passed over, and it is the run. */
    method Play(es: seq<Event>, ghost w: World)
      requires Valid() && Inv(w) && w.k == View()
      modifies this
      ensures Valid() && View() == After(w, es).k
    {
      hide Valid;
      hide Inv;
      hide May;
      hide Next;
      ghost var now := w;
      var i := 0;
      assert es[0..] == es;
      while i < |es|
        invariant 0 <= i <= |es| && Valid() && Inv(now) && now.k == View()
        invariant After(now, es[i..]) == After(w, es)
      {
        ReceiveHead(now);
        assert es[i..][0] == es[i] && es[i..][1..] == es[i + 1..];
        var ok := Allowed(es[i], now);
        if ok {
          Handle(es[i], now);
          now := Next(now, es[i]);
        }
        i := i + 1;
      }
    }
  }
}
