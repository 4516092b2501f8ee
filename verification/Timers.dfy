/**
 The queue of pending timers: a list linked through the timers, sorted by the
 time they go off, with the first time cached; and the tick that fires the
 timers that are due while their handlers set new ones.
 */
module Timers {
  import opened LinkedLists

  const EINVAL := 22

  /** Later than any time that is ever set. */
  const TIMER_NEVER := 0x7fff_ffff

  /** A call of new_timer that a handler makes: the timer and how long it is to wait. */
  datatype Arm = Arm(timer: nat, wait: int)

  // ----- sorted lists -----

  ghost predicate Sorted(at: seq<int>, q: seq<int>) {
    && (forall i :: 0 <= i < |q| ==> 0 <= q[i] < |at|)
    && forall i, j :: 0 <= i < j < |q| ==> at[q[i]] <= at[q[j]]
  }

  /** How many timers at the front of the list go off before time t. */
  function Before(at: seq<int>, q: seq<int>, t: int): (n: nat)
    requires InTable(at, q)
    ensures n <= |q| && (forall i :: 0 <= i < n ==> at[q[i]] < t) && (n < |q| ==> at[q[n]] >= t)
  {
    if q == [] || at[q[0]] >= t then 0 else 1 + Before(at, q[1..], t)
  }

  /** The list with timer t put in front of those that do not go off before it. */
  function Inserted(at: seq<int>, q: seq<int>, t: int): seq<int>
    requires (forall i :: 0 <= i < |q| ==> 0 <= q[i] < |at|) && 0 <= t < |at|
  {
    var n := Before(at, q, at[t]);
    q[..n] + [t] + q[n..]
  }

  lemma InsertedSorted(at: seq<int>, q: seq<int>, t: int)
    requires Sorted(at, q) && 0 <= t < |at|
    ensures Sorted(at, Inserted(at, q, t))
  {
  }

  lemma InsertedMembers(q: seq<int>, n: nat, t: int)
    requires NoDup(q) && t !in q && n <= |q|
    ensures NoDup(q[..n] + [t] + q[n..])
    ensures forall x :: x in q[..n] + [t] + q[n..] <==> x in q || x == t
  {
  }

  /** A time that has just been set changes no list that the timer is not in. */
  lemma OtherTime(at: seq<int>, q: seq<int>, t: int, v: int)
    requires Sorted(at, q) && 0 <= t < |at| && t !in q
    ensures Sorted(at[t := v], q)
  {
  }

  lemma ChainedStart(next: seq<int>, q: seq<int>, h: int)
    requires Chained(next, q, h)
    ensures h == if q == [] then END else q[0]
    ensures forall i :: 0 <= i < |q| ==> 0 <= q[i] < |next|
  {
  }

  /** The links that a walk along a list follows. */
  lemma ChainedLinks(next: seq<int>, q: seq<int>, h: int)
    requires Chained(next, q, h)
    ensures h == if q == [] then END else q[0]
    ensures forall i :: 0 <= i < |q| ==> 0 <= q[i] < |next| && next[q[i]] == if i + 1 < |q| then q[i + 1] else END
  {
    hide Chained;
    ChainedStart(next, q, h);
    forall i | 0 <= i < |q| ensures next[q[i]] == if i + 1 < |q| then q[i + 1] else END {
      ChainedAt(next, q, h, i);
    }
  }

  /** A timer in front of all others. */
  lemma InsertedFirst(next: seq<int>, q: seq<int>, h: int, t: int)
    requires Chained(next, q, h) && 0 <= t < |next| && t !in q
    ensures Chained(next[t := h], q[..0] + [t] + q[0..], t)
  {
    hide Chained;
    assert q[..0] + [t] + q[0..] == [t] + q;
    ChainedKept(next, q, h, t, h);
    ChainedStart(next, q, h);
    ChainedCons(next[t := h], q, t);
  }

  ghost predicate Linked(at: seq<int>, next: seq<int>, inUse: seq<bool>, pending: int, q: seq<int>) {
    && |at| == |next| == |inUse|
    && Chained(next, q, pending) && NoDup(q) && Sorted(at, q)
    && (forall i :: 0 <= i < |q| ==> at[q[i]] < TIMER_NEVER)
    && forall t :: 0 <= t < |at| ==> (inUse[t] <==> t in q)
  }

  lemma InRange(at: seq<int>, q: seq<int>)
    requires Sorted(at, q)
    ensures forall i :: 0 <= i < |q| ==> 0 <= q[i] < |at|
  {
  }

  lemma LinkedInserted(at: seq<int>, next: seq<int>, inUse: seq<bool>, pending: int, q: seq<int>, t: int)
    requires |at| == |next| == |inUse| && 0 <= t < |at| && t !in q && NoDup(q) && Sorted(at, q) && at[t] < TIMER_NEVER
    requires (forall i :: 0 <= i < |q| ==> at[q[i]] < TIMER_NEVER)
    requires Chained(next, Inserted(at, q, t), pending) && forall x :: 0 <= x < |at| ==> (inUse[x] <==> x in q)
    ensures Linked(at, next, inUse[t := true], pending, Inserted(at, q, t))
  {
    hide Chained;
    hide NoDup;
    InsertedSorted(at, q, t);
    InsertedMembers(q, Before(at, q, at[t]), t);
  }

  /** What is left when the timer at place k is taken off. */
  lemma Unlinked(at: seq<int>, inUse: seq<bool>, q: seq<int>, k: nat)
    requires |at| == |inUse| && NoDup(q) && Sorted(at, q) && k < |q|
    requires forall i :: 0 <= i < |q| ==> at[q[i]] < TIMER_NEVER
    requires forall t :: 0 <= t < |at| ==> (inUse[t] <==> t in q)
    ensures var q' := q[..k] + q[k + 1..];
            && NoDup(q') && Sorted(at, q') && q[k] !in q' && (forall i :: 0 <= i < |q'| ==> at[q'[i]] < TIMER_NEVER)
            && forall t :: 0 <= t < |at| ==> (inUse[q[k] := false][t] <==> t in q')
  {
  }

  lemma OncePlace(q: seq<int>, i: nat, k: nat)
    requires NoDup(q) && i < |q| && k < |q| && q[i] == q[k]
    ensures i == k
  {
  }

  /** What the walk along the list finds. */
  lemma Walked(at: seq<int>, next: seq<int>, inUse: seq<bool>, pending: int, q: seq<int>)
    requires Linked(at, next, inUse, pending, q)
    ensures |next| == |at| == |inUse| && NoDup(q) && pending == (if q == [] then END else q[0])
    ensures forall i :: 0 <= i < |q| ==> 0 <= q[i] < |at| && at[q[i]] < TIMER_NEVER
    ensures forall i :: 0 <= i < |q| ==> next[q[i]] == if i + 1 < |q| then q[i + 1] else END
  {
    ChainedLinks(next, q, pending);
  }

  /** The links once the timer at place k is taken off. */
  lemma RemoveOk(at: seq<int>, next: seq<int>, inUse: seq<bool>, pending: int, q: seq<int>, k: nat)
    requires Linked(at, next, inUse, pending, q) && k < |q| && (forall i :: 0 <= i < |q| ==> 0 <= q[i] < |next|)
    ensures var q' := Without(q, q[k]);
            && |q'| == |q| - 1 && (q' != [] ==> q'[0] == if k > 0 then q[0] else q[1])
            && (k > 0 ==> Linked(at, next[q[k - 1] := next[q[k]]], inUse[q[k] := false], pending, q'))
            && (k == 0 ==> Linked(at, next, inUse[q[k] := false], next[pending], q'))
  {
    hide Chained;
    hide Sorted;
    hide NoDup;
    hide Without;
    WithoutIs(q, k);
    Unlinked(at, inUse, q, k);
    if k > 0 {
      ChainedRemove(next, q, pending, k);
    } else {
      ChainedHead(next, q, pending);
      assert q[..0] + q[1..] == q[1..];
    }
  }

  /** The links once the first timer has left and its own link is cleared. */
  lemma FirstOff(at: seq<int>, next: seq<int>, inUse: seq<bool>, pending: int, q: seq<int>)
    requires Linked(at, next, inUse, pending, q) && q != [] && 0 <= pending < |next| && pending == q[0]
    ensures Linked(at, next[pending := END], inUse[pending := false], next[pending], q[1..])
  {
    hide Sorted;
    hide NoDup;
    hide Chained;
    ChainedHead(next, q, pending);
    Unlinked(at, inUse, q, 0);
    assert q[..0] + q[1..] == q[1..];
    ChainedKept(next, q[1..], next[pending], pending, END);
  }

  predicate ArmOk(a: Arm, n: nat, uptime: int) {
    a.timer < n && uptime + a.wait < TIMER_NEVER
  }

  /** Every timer that a handler may set exists, and no time that it sets is out of reach. */
  ghost predicate CallsOk(handler: (nat, nat) -> seq<Arm>, n: nat, uptime: int) {
    forall t: nat, i: nat :: AllArmsOk(handler(t, i), n, uptime)
  }

  predicate AllArmsOk(arms: seq<Arm>, n: nat, uptime: int) {
    forall k :: 0 <= k < |arms| ==> ArmOk(arms[k], n, uptime)
  }

  ghost predicate InTable(at: seq<int>, q: seq<int>) {
    forall i :: 0 <= i < |q| ==> 0 <= q[i] < |at|
  }

  /** No timer is lost, and the timers due at time u are the same, in the same order. */
  ghost predicate KeepsDue(at: seq<int>, q: seq<int>, at': seq<int>, q': seq<int>, u: int) {
    && InTable(at, q) && InTable(at', q') && |at'| == |at|
    && q[..Before(at, q, u + 1)] == q'[..Before(at', q', u + 1)]
    && forall x :: x in q ==> x in q' && at'[x] == at[x]
  }

  lemma TableOf(at: seq<int>, next: seq<int>, inUse: seq<bool>, pending: int, q: seq<int>)
    requires Linked(at, next, inUse, pending, q)
    ensures InTable(at, q) && |next| == |inUse| == |at|
  {
  }

  lemma FrontSorted(at: seq<int>, next: seq<int>, inUse: seq<bool>, pending: int, q: seq<int>, n: nat)
    requires Linked(at, next, inUse, pending, q) && n <= |q|
    ensures Sorted(at, q[..n]) && NoDup(q[..n])
  {
  }

  /** The first timer of the list is in it once. */
  lemma FirstOnce(at: seq<int>, next: seq<int>, inUse: seq<bool>, pending: int, q: seq<int>)
    requires Linked(at, next, inUse, pending, q)
    ensures q != [] ==> 0 <= q[0] && q[0] !in q[1..]
  {
    hide Chained;
  }

  lemma InsertedIn(at: seq<int>, q: seq<int>, t: int)
    requires InTable(at, q) && 0 <= t < |at|
    ensures forall x :: x in Inserted(at, q, t) <==> x in q || x == t
  {
    var n := Before(at, q, at[t]);
    assert q == q[..n] + q[n..];
  }

  lemma KeepsDueSame(at: seq<int>, next: seq<int>, inUse: seq<bool>, pending: int, q: seq<int>, u: int)
    requires Linked(at, next, inUse, pending, q)
    ensures KeepsDue(at, q, at, q, u)
  {
  }

  /** Setting a timer for later than u. */
  lemma KeepsDueArm(at: seq<int>, q: seq<int>, at1: seq<int>, q1: seq<int>,
                    at2: seq<int>, next: seq<int>, inUse: seq<bool>, pending: int, u: int, t: int)
    requires KeepsDue(at, q, at1, q1, u) && 0 <= t < |at1| && t !in q1 && |at2| == |at1| && at2 == at1[t := at2[t]]
             && at2[t] > u
    requires Linked(at2, next, inUse, pending, Inserted(at2, q1, t))
    ensures KeepsDue(at, q, at2, Inserted(at2, q1, t), u)
  {
    hide Before;
    hide Inserted;
    SameBefore(at1, at2, q1, u + 1);
    ArmBefore(at2, q1, t, u);
    TableOf(at2, next, inUse, pending, Inserted(at2, q1, t));
  }

  lemma ArmBefore(at: seq<int>, q: seq<int>, t: int, u: int)
    requires InTable(at, q) && 0 <= t < |at| && at[t] > u
    ensures var q' := Inserted(at, q, t);
            && InTable(at, q') && Before(at, q', u + 1) == Before(at, q, u + 1)
            && q'[..Before(at, q, u + 1)] == q[..Before(at, q, u + 1)]
            && forall x :: x in q ==> x in q'
  {
    var q' := Inserted(at, q, t);
    var n, d := Before(at, q, at[t]), Before(at, q, u + 1);
    assert d <= n;
    BeforeIs(at, q', u + 1, d);
    assert q'[..d] == q[..d];
    forall x | x in q ensures x in q' {
      assert q == q[..n] + q[n..];
    }
  }

  lemma {:induction false} SameBefore(at: seq<int>, at': seq<int>, q: seq<int>, u: int)
    requires InTable(at, q) && |at| == |at'| && forall i :: 0 <= i < |q| ==> at'[q[i]] == at[q[i]]
    ensures Before(at', q, u) == Before(at, q, u)
    decreases |q|
  {
  }

  lemma BeforeIs(at: seq<int>, q: seq<int>, u: int, d: nat)
    requires InTable(at, q) && d <= |q| && (forall i :: 0 <= i < d ==> at[q[i]] < u) && (d < |q| ==> at[q[d]] >= u)
    ensures Before(at, q, u) == d
  {
  }

  // ----- what the handlers set -----

  /** Arm k sets timer x: it is for that timer and for some time. */
  predicate Arms(arms: seq<Arm>, x: int, k: nat) {
    k < |arms| && arms[k].timer == x && arms[k].wait > 0
  }

  /**
   What some arms make of timer x at time u: one that is pending stays as it is,
   any other goes off as the first of the arms for it says.
   */
  ghost predicate SetByAt(arms: seq<Arm>, at: seq<int>, q: seq<int>, at': seq<int>, q': seq<int>, u: int, x: int)
    requires |at'| == |at| && 0 <= x < |at|
  {
    if x in q then x in q' && at'[x] == at[x]
    else if x in q' then
      exists k: nat :: Arms(arms, x, k) && at'[x] == u + arms[k].wait && forall j: nat :: Arms(arms, x, j) ==> k <= j
    else forall j: nat :: !Arms(arms, x, j)
  }

  ghost predicate SetBy(arms: seq<Arm>, at: seq<int>, q: seq<int>, at': seq<int>, q': seq<int>, u: int) {
    |at'| == |at| && forall x :: 0 <= x < |at| ==> SetByAt(arms, at, q, at', q', u, x)
  }

  lemma SetByNone(at: seq<int>, q: seq<int>, u: int)
    ensures SetBy([], at, q, at, q, u)
  {
  }

  lemma SetByOne(arms: seq<Arm>, at: seq<int>, q: seq<int>, at1: seq<int>, q1: seq<int>,
                 a: Arm, at2: seq<int>, q2: seq<int>, u: int)
    requires SetBy(arms, at, q, at1, q1, u) && a.timer < |at|
    requires if a.wait > 0 && a.timer !in q1 then
               at2 == at1[a.timer := u + a.wait] && forall x :: x in q2 <==> x in q1 || x == a.timer
             else at2 == at1 && q2 == q1
    ensures SetBy(arms + [a], at, q, at2, q2, u)
  {
    var arms', n := arms + [a], |arms|;
    forall x | 0 <= x < |at| ensures SetByAt(arms', at, q, at2, q2, u, x) {
      assert SetByAt(arms, at, q, at1, q1, u, x);
      assert forall j: nat :: Arms(arms', x, j) <==> Arms(arms, x, j) || (j == n && a.timer == x && a.wait > 0);
      if x !in q && x in q1 {
        var k: nat :| Arms(arms, x, k) && at1[x] == u + arms[k].wait && forall j: nat :: Arms(arms, x, j) ==> k <= j;
        assert Arms(arms', x, k) && at2[x] == u + arms'[k].wait;
      } else if x !in q && x in q2 {
        assert Arms(arms', x, n) && at2[x] == u + arms'[n].wait;
      }
    }
  }

  /** The arm k of the i-th firing sets timer x, and x has not gone off again since. */
  ghost predicate Sets(handler: (nat, nat) -> seq<Arm>, f: nat, fired: seq<int>, x: int, i: nat, k: nat) {
    i < |fired| && 0 <= fired[i] && Arms(handler(fired[i], f + i), x, k) && x !in fired[i + 1..]
  }

  /** It is the first to do so. */
  ghost predicate SetsFirst(handler: (nat, nat) -> seq<Arm>, f: nat, fired: seq<int>, x: int, i: nat, k: nat) {
    && Sets(handler, f, fired, x, i, k)
    && forall j: nat, l: nat :: Sets(handler, f, fired, x, j, l) ==> i < j || (i == j && k <= l)
  }

  /**
   What has become of timer x since the list was q0 with times at0, after some
   firings at time u: one that was pending and has not gone off still is, any
   other is pending exactly if a handler set it, for the time that the first one
   said. A handler cannot set a timer that is still to go off.
   */
  ghost predicate TimerIs(handler: (nat, nat) -> seq<Arm>, f: nat, at0: seq<int>, q0: seq<int>, fired: seq<int>,
                          at: seq<int>, q: seq<int>, u: int, x: int)
    requires |at| == |at0| && 0 <= x < |at|
  {
    if x in q0 && x !in fired then x in q && at[x] == at0[x]
    else if x in q then
      exists i: nat, k: nat ::
        SetsFirst(handler, f, fired, x, i, k) && at[x] == u + handler(fired[i], f + i)[k].wait
    else forall i: nat, k: nat :: !Sets(handler, f, fired, x, i, k)
  }

  ghost predicate Armed(handler: (nat, nat) -> seq<Arm>, f: nat, at0: seq<int>, q0: seq<int>, fired: seq<int>,
                        at: seq<int>, q: seq<int>, u: int) {
    |at| == |at0| && forall x :: 0 <= x < |at| ==> TimerIs(handler, f, at0, q0, fired, at, q, u, x)
  }

  lemma ArmedStart(handler: (nat, nat) -> seq<Arm>, f: nat, at: seq<int>, q: seq<int>, u: int)
    ensures Armed(handler, f, at, q, [], at, q, u)
  {
  }

  lemma SetsInside(handler: (nat, nat) -> seq<Arm>, f: nat, fired: seq<int>, x: int, i: nat, k: nat)
    requires Sets(handler, f, fired, x, i, k)
    ensures i < |fired| && 0 <= fired[i] && k < |handler(fired[i], f + i)|
  {
  }

  /** A timer that a handler sets for some time is pending afterwards, unless it goes off later in the same tick. */
  lemma ArmHolds(handler: (nat, nat) -> seq<Arm>, f: nat, at0: seq<int>, q0: seq<int>, fired: seq<int>,
                 at: seq<int>, q: seq<int>, u: int, i: nat, k: nat)
    requires Armed(handler, f, at0, q0, fired, at, q, u) && i < |fired| && 0 <= fired[i]
    requires k < |handler(fired[i], f + i)|
    requires var a := handler(fired[i], f + i)[k]; a.wait > 0 && a.timer < |at| && a.timer !in fired[i + 1..]
    ensures handler(fired[i], f + i)[k].timer in q
  {
    var x := handler(fired[i], f + i)[k].timer;
    assert TimerIs(handler, f, at0, q0, fired, at, q, u, x);
    assert Sets(handler, f, fired, x, i, k);
  }

  /** Otherwise it can be lost: timer 0 sets timer 1, which is still to go off and then is not set again. */
  lemma LostArm(f: nat, at: seq<int>, q: seq<int>)
    requires Armed((t, n) => if t == 0 then [Arm(1, 50)] else [], f, [100, 100], [0, 1], [0, 1], at, q, 100)
    ensures 1 !in q
  {
    var handler: (nat, nat) -> seq<Arm> := (t, n) => if t == 0 then [Arm(1, 50)] else [];
    assert TimerIs(handler, f, [100, 100], [0, 1], [0, 1], at, q, 100, 1);
    assert [0, 1][0 + 1..] == [1];
  }

  /** A firing more: which arms still count. */
  lemma SetsOn(handler: (nat, nat) -> seq<Arm>, f: nat, fired: seq<int>, t: nat, x: int, i: nat, k: nat)
    ensures Sets(handler, f, fired + [t], x, i, k) <==>
            if i < |fired| then Sets(handler, f, fired, x, i, k) && x != t
            else i == |fired| && Arms(handler(t, f + i), x, k)
  {
    if i < |fired| {
      assert (fired + [t])[i + 1..] == fired[i + 1..] + [t];
    }
  }

  lemma FirstKept(handler: (nat, nat) -> seq<Arm>, f: nat, fired: seq<int>, t: nat, x: int, i: nat, k: nat)
    requires SetsFirst(handler, f, fired, x, i, k) && x != t
    ensures SetsFirst(handler, f, fired + [t], x, i, k)
  {
    hide Sets;
    SetsOn(handler, f, fired, t, x, i, k);
    SetsInside(handler, f, fired, x, i, k);
    forall j: nat, l: nat | Sets(handler, f, fired + [t], x, j, l) ensures i < j || (i == j && k <= l) {
      SetsOn(handler, f, fired, t, x, j, l);
    }
  }

  lemma FirstNew(handler: (nat, nat) -> seq<Arm>, f: nat, fired: seq<int>, t: nat, arms: seq<Arm>, x: int, k: nat)
    requires x == t || forall j: nat, l: nat :: !Sets(handler, f, fired, x, j, l)
    requires arms == handler(t, f + |fired|) && Arms(arms, x, k) && forall l: nat :: Arms(arms, x, l) ==> k <= l
    ensures SetsFirst(handler, f, fired + [t], x, |fired|, k)
  {
    hide Sets;
    SetsOn(handler, f, fired, t, x, |fired|, k);
    forall j: nat, l: nat | Sets(handler, f, fired + [t], x, j, l)
      ensures |fired| < j || (|fired| == j && k <= l)
    {
      SetsOn(handler, f, fired, t, x, j, l);
    }
  }

  lemma NoneNew(handler: (nat, nat) -> seq<Arm>, f: nat, fired: seq<int>, t: nat, arms: seq<Arm>, x: int)
    requires x == t || forall j: nat, l: nat :: !Sets(handler, f, fired, x, j, l)
    requires arms == handler(t, f + |fired|) && forall l: nat :: !Arms(arms, x, l)
    ensures forall j: nat, l: nat :: !Sets(handler, f, fired + [t], x, j, l)
  {
    hide Sets;
    forall j: nat, l: nat ensures !Sets(handler, f, fired + [t], x, j, l) {
      SetsOn(handler, f, fired, t, x, j, l);
    }
  }

  lemma ArmedOnAt(handler: (nat, nat) -> seq<Arm>, f: nat, at0: seq<int>, q0: seq<int>, fired: seq<int>,
                  at: seq<int>, q: seq<int>, at': seq<int>, q': seq<int>, u: int, x: int)
    requires |at| == |at0| == |at'| && 0 <= x < |at| && q != [] && 0 <= q[0] && q[0] !in q[1..]
    requires TimerIs(handler, f, at0, q0, fired, at, q, u, x)
    requires SetByAt(handler(q[0], f + |fired|), at, q[1..], at', q', u, x)
    ensures TimerIs(handler, f, at0, q0, fired + [q[0]], at', q', u, x)
  {
    var t, n := q[0], |fired|;
    var fired', arms := fired + [t], handler(t, f + n);
    assert x in q <==> x == t || x in q[1..];
    if x in q0 && x !in fired' {
    } else if x in q[1..] {
      var i: nat, k: nat :| SetsFirst(handler, f, fired, x, i, k) && at[x] == u + handler(fired[i], f + i)[k].wait;
      FirstKept(handler, f, fired, t, x, i, k);
      assert fired'[i] == fired[i];
    } else if x in q' {
      var k: nat :| Arms(arms, x, k) && at'[x] == u + arms[k].wait && forall j: nat :: Arms(arms, x, j) ==> k <= j;
      FirstNew(handler, f, fired, t, arms, x, k);
      assert fired'[n] == t;
    } else {
      NoneNew(handler, f, fired, t, arms, x);
    }
  }

  lemma ArmedOn(handler: (nat, nat) -> seq<Arm>, f: nat, at0: seq<int>, q0: seq<int>, fired: seq<int>,
                at: seq<int>, q: seq<int>, at': seq<int>, q': seq<int>, u: int)
    requires Armed(handler, f, at0, q0, fired, at, q, u) && q != [] && 0 <= q[0] && q[0] !in q[1..]
    requires SetBy(handler(q[0], f + |fired|), at, q[1..], at', q', u)
    ensures Armed(handler, f, at0, q0, fired + [q[0]], at', q', u)
  {
    hide TimerIs;
    hide SetByAt;
    forall x | 0 <= x < |at'| ensures TimerIs(handler, f, at0, q0, fired + [q[0]], at', q', u, x) {
      ArmedOnAt(handler, f, at0, q0, fired, at, q, at', q', u, x);
    }
  }

  /** How far a tick has come: what was due has fired or is still at the front of the list. */
  ghost predicate Progress(at0: seq<int>, q0: seq<int>, at: seq<int>, q: seq<int>, fired: seq<int>, u: int) {
    && InTable(at0, q0) && InTable(at, q) && |at| == |at0|
    && fired + q[..Before(at, q, u + 1)] == q0[..Before(at0, q0, u + 1)]
    && forall x :: x in q0 && x !in fired ==> x in q && at[x] == at0[x]
  }

  lemma Fire(at0: seq<int>, q0: seq<int>, at: seq<int>, q: seq<int>, fired: seq<int>, u: int, at': seq<int>,
             q': seq<int>)
    requires Progress(at0, q0, at, q, fired, u) && q != [] && at[q[0]] <= u && KeepsDue(at, q[1..], at', q', u)
    ensures Progress(at0, q0, at', q', fired + [q[0]], u)
    ensures Before(at', q', u + 1) < Before(at, q, u + 1)
  {
  }

  lemma Start(at: seq<int>, q: seq<int>, u: int)
    requires InTable(at, q)
    ensures Progress(at, q, at, q, [], u)
  {
  }

  lemma Finish(at0: seq<int>, q0: seq<int>, at: seq<int>, q: seq<int>, fired: seq<int>, u: int)
    requires Progress(at0, q0, at, q, fired, u) && Before(at, q, u + 1) == 0
    ensures |at| == |at0| && fired == q0[..Before(at0, q0, u + 1)]
    ensures forall x :: x in q0 && x !in fired ==> x in q && at[x] == at0[x]
  {
  }

  lemma NoneDue(at: seq<int>, next: seq<int>, inUse: seq<bool>, pending: int, q: seq<int>, u: int)
    requires Linked(at, next, inUse, pending, q) && (q != [] ==> at[q[0]] > u)
    ensures InTable(at, q) && Before(at, q, u + 1) == 0 && forall i :: 0 <= i < |q| ==> at[q[i]] > u
  {
  }

  /** What has been done when a tick ends. */
  lemma Ended(at0: seq<int>, next0: seq<int>, inUse0: seq<bool>, pending0: int, q0: seq<int>,
              at: seq<int>, next: seq<int>, inUse: seq<bool>, pending: int, q: seq<int>, fired: seq<int>, u: int)
    requires Linked(at0, next0, inUse0, pending0, q0) && Linked(at, next, inUse, pending, q)
             && (q != [] ==> at[q[0]] > u)
    requires Progress(at0, q0, at, q, fired, u)
    ensures |at| == |at0| && InTable(at0, q0) && InTable(at, q) && fired == q0[..Before(at0, q0, u + 1)]
    ensures Sorted(at0, fired) && NoDup(fired)
    ensures forall i :: 0 <= i < |q| ==> at[q[i]] > u
    ensures forall x :: x in q0 && x !in fired ==> x in q && at[x] == at0[x]
  {
    hide Linked;
    hide Before;
    hide Sorted;
    hide NoDup;
    NoneDue(at, next, inUse, pending, q, u);
    Finish(at0, q0, at, q, fired, u);
    FrontSorted(at0, next0, inUse0, pending0, q0, Before(at0, q0, u + 1));
  }

  class TimerQueue {
    var at: seq<int>
    var next: seq<int>
    var inUse: seq<bool>
    var pending: int
    var nextTimeout: int
    var uptime: int
    ghost var q: seq<int>

    /** How many timers have gone off, and what the handler of a timer sets when it is called at a firing. */
    var firings: nat
    const handler: (nat, nat) -> seq<Arm>

    /** The list is in order, and the cached time is that of the first timer if there is one. */
    ghost predicate Ordered()
      reads this
    {
      Linked(at, next, inUse, pending, q) && (q != [] ==> nextTimeout == at[q[0]])
    }

    ghost predicate Valid()
      reads this
    {
      Ordered() && (q == [] ==> nextTimeout == TIMER_NEVER)
    }

    /** The state at boot: no timer, and a cached time that is not TIMER_NEVER yet. */
    constructor (timers: nat, calls: (nat, nat) -> seq<Arm>)
      ensures Ordered() && |at| == timers && q == [] && nextTimeout == 0 && uptime == 0 && handler == calls
    {
      handler, firings := calls, 0;
      at, next := seq(timers, i => 0), seq(timers, i => END);
      inUse := seq(timers, i => false);
      pending, nextTimeout, uptime := END, 0, 0;
      q := [];
    }

    method NewTimer(t: nat, timeout: int) returns (r: int)
      requires Ordered() && t < |at| && uptime + timeout < TIMER_NEVER
      modifies `at, `next, `inUse, `pending, `nextTimeout, `q
      ensures if timeout > 0 && t !in old(q) then
                && r == 0 && Valid() && at == old(at)[t := uptime + timeout]
                && (forall i :: 0 <= i < |old(q)| ==> 0 <= old(q)[i] < |at|) && q == Inserted(at, old(q), t)
              else r == -EINVAL && Ordered() && q == old(q) && at == old(at) && nextTimeout == old(nextTimeout)
    {
      hide Chained;
      hide Sorted;
      hide NoDup;
      if timeout <= 0 {
        return -EINVAL;
      }
      if !inUse[t] {
        inUse := inUse[t := true];
        OtherTime(at, q, t, uptime + timeout);
        at := at[t := uptime + timeout];
        ChainedKept(next, q, pending, t, END);
        next := next[t := END];
        InRange(at, q);
        InsertTimer(t);
        LinkedInserted(at, next, old(inUse), pending, old(q), t);
        return 0;
      }
      return -EINVAL;
    }

    method InsertTimer(t: nat)
      requires |at| == |next| && t < |at| && Chained(next, q, pending) && NoDup(q) && Sorted(at, q) && t !in q
      requires q != [] ==> nextTimeout == at[q[0]]
      modifies `next, `pending, `nextTimeout, `q
      ensures |next| == |at| && q == Inserted(at, old(q), t) && Chained(next, q, pending) && nextTimeout == at[q[0]]
    {
      hide Chained;
      hide NoDup;
      hide Sorted;
      hide Before;
      var prev, curr := END, pending;
      var newTimeout := at[t];
      ghost var i := 0;
      ChainedStart(next, q, pending);
      while curr != END && at[curr] < newTimeout
        invariant 0 <= i <= |q| && curr == (if i < |q| then q[i] else END) && prev == (if i > 0 then q[i - 1] else END)
        invariant forall j :: 0 <= j < i ==> at[q[j]] < newTimeout
        decreases |q| - i
        modifies {}
      {
        ChainedAt(next, q, pending, i);
        prev := curr;
        curr := next[curr];
        i := i + 1;
      }
      BeforeIs(at, q, newTimeout, i);
      if prev != END {
        ChainedInsert(next, q, pending, i, t);
        next := next[prev := t];
        next := next[t := curr];
      } else {
        InsertedFirst(next, q, pending, t);
        next := next[t := pending];
        pending := t;
        nextTimeout := at[pending];
      }
      q := q[..i] + [t] + q[i..];
    }

    /** Take the first timer off the list. With no timer there is nothing to take, and the source panics. */
    method DequeueAlarm() returns (t: int)
      requires Ordered()
      modifies `pending, `nextTimeout, `inUse, `next, `q
      ensures if old(q) == [] then t == END && Ordered() && q == [] && nextTimeout == old(nextTimeout)
              else Valid() && t == old(q)[0] && q == old(q)[1..]
    {
      hide Linked;
      t := pending;
      Walked(at, next, inUse, pending, q);
      if t == END {
        return;
      }
      FirstOff(at, next, inUse, pending, q);
      Walked(at, next[t := END], inUse[t := false], next[t], q[1..]);
      pending := next[t];
      q := q[1..];
      if pending != END {
        nextTimeout := at[pending];
      } else {
        nextTimeout := TIMER_NEVER;
      }
      inUse := inUse[t := false];
      next := next[t := END];
    }

    /**
     Take a pending timer off the list, wherever it is. The cached time is
     right afterwards unless the list has become empty: then it is still the
     time of the timer that was removed.
     */
    method RemoveTimer(t: nat)
      requires Ordered() && t in q
      modifies `pending, `nextTimeout, `inUse, `next, `q
      ensures Ordered() && q == Without(old(q), t)
      ensures q == [] ==> nextTimeout == old(nextTimeout)
      ensures Valid() <==> |old(q)| > 1
    {
      hide Linked;
      hide NoDup;
      hide Without;
      hide IndexIn;
      ghost var k := IndexIn(q, t);
      Walked(at, next, inUse, pending, q);
      RemoveOk(at, next, inUse, pending, q, k);
      var prev, curr := END, pending;
      ghost var i := 0;
      while curr != END && curr != t
        invariant 0 <= i <= k && curr == q[i] && prev == (if i > 0 then q[i - 1] else END)
        decreases k - i
        modifies {}
      {
        prev := curr;
        curr := next[curr];
        i := i + 1;
      }
      OncePlace(q, i, k);
      if prev != END {
        next := next[prev := next[curr]];
      } else {
        pending := next[pending];
        if pending != END {
          nextTimeout := at[pending];
        }
      }
      inUse := inUse[t := false];
      q := Without(q, t);
    }

    ghost predicate ArmsOk()
      reads this
    {
      CallsOk(handler, |at|, uptime)
    }

    /** The handler of timer t: new timers are set, all of them for later. */
    method RunHandler(t: nat)
      requires Valid() && ArmsOk() && uptime < TIMER_NEVER
      modifies `at, `next, `inUse, `pending, `nextTimeout, `q, `firings
      ensures Valid() && |at| == |old(at)| && KeepsDue(old(at), old(q), at, q, uptime) && firings == old(firings) + 1
      ensures SetBy(handler(t, old(firings)), old(at), old(q), at, q, uptime)
    {
      hide Linked;
      hide SetBy;
      hide KeepsDue;
      var arms := handler(t, firings);
      assert AllArmsOk(arms, |at|, uptime);
      firings := firings + 1;
      var k := 0;
      KeepsDueSame(at, next, inUse, pending, q, uptime);
      SetByNone(at, q, uptime);
      assert arms[..0] == [];
      while k < |arms|
        invariant 0 <= k <= |arms| && Valid() && |at| == |old(at)| && KeepsDue(old(at), old(q), at, q, uptime)
        invariant firings == old(firings) + 1 && SetBy(arms[..k], old(at), old(q), at, q, uptime)
      {
        assert ArmOk(arms[k], |at|, uptime);
        ArmOne(arms[k], old(at), old(q), arms[..k]);
        assert arms[..k + 1] == arms[..k] + [arms[k]];
        k := k + 1;
      }
      assert arms[..k] == arms;
    }

    /** One of the calls that a handler makes. */
    method ArmOne(a: Arm, ghost at0: seq<int>, ghost q0: seq<int>, ghost arms: seq<Arm>)
      requires Valid() && ArmOk(a, |at|, uptime) && |at| == |at0|
      requires KeepsDue(at0, q0, at, q, uptime) && SetBy(arms, at0, q0, at, q, uptime)
      modifies `at, `next, `inUse, `pending, `nextTimeout, `q
      ensures Valid() && |at| == |old(at)|
      ensures KeepsDue(at0, q0, at, q, uptime) && SetBy(arms + [a], at0, q0, at, q, uptime)
    {
      hide Linked;
      hide SetBy;
      hide KeepsDue;
      hide Inserted;
      ghost var at1, q1 := at, q;
      var r := NewTimer(a.timer, a.wait);
      if r == 0 {
        KeepsDueArm(at0, q0, at1, q1, at, next, inUse, pending, uptime, a.timer);
        InsertedIn(at, q1, a.timer);
      }
      SetByOne(arms, at0, q0, at1, q1, a, at, q, uptime);
    }

    /** One turn of the loop: the first timer leaves and its handler is called. */
    method FireFirst() returns (t: int)
      requires Ordered() && ArmsOk() && uptime < TIMER_NEVER
      modifies `at, `next, `inUse, `pending, `nextTimeout, `q, `firings
      ensures if old(q) == [] then
                t == END && Ordered() && q == [] && at == old(at) && nextTimeout == old(nextTimeout)
                && firings == old(firings)
              else
                && Valid() && 0 <= t == old(q)[0] && t !in old(q)[1..] && |at| == |old(at)|
                && firings == old(firings) + 1 && KeepsDue(old(at), old(q)[1..], at, q, uptime)
                && SetBy(handler(t, old(firings)), old(at), old(q)[1..], at, q, uptime)
    {
      hide Linked;
      hide CallsOk;
      hide SetBy;
      TableOf(at, next, inUse, pending, q);
      FirstOnce(at, next, inUse, pending, q);
      t := DequeueAlarm();
      if t != END {
        RunHandler(t);
      }
    }

    /** The same in the course of a tick that began with times at0 and list q0 and has fired some timers. */
    method Turn(ghost at0: seq<int>, ghost q0: seq<int>, ghost fired: seq<int>, ghost f: nat) returns (t: int)
      requires Ordered() && ArmsOk() && nextTimeout <= uptime < TIMER_NEVER && InTable(at, q) && firings == f + |fired|
      requires Progress(at0, q0, at, q, fired, uptime) && if q0 == [] then q == [] else Valid()
      requires Armed(handler, f, at0, q0, fired, at, q, uptime)
      modifies `at, `next, `inUse, `pending, `nextTimeout, `q, `firings
      ensures if q0 == [] then
                t == END && Ordered() && q == [] && at == old(at) && nextTimeout == old(nextTimeout)
                && firings == old(firings)
              else
                && t != END && Valid() && |at| == |old(at)| && firings == old(firings) + 1
                && InTable(at, q) && Progress(at0, q0, at, q, fired + [t], uptime)
                && Armed(handler, f, at0, q0, fired + [t], at, q, uptime)
                && Before(at, q, uptime + 1) < old(Before(at, q, uptime + 1))
    {
      hide Linked;
      hide Before;
      hide Progress;
      hide KeepsDue;
      hide CallsOk;
      hide Armed;
      hide SetBy;
      ghost var at1, q1 := at, q;
      t := FireFirst();
      if q1 != [] {
        Fire(at0, q0, at1, q1, fired, uptime, at, q);
        ArmedOn(handler, f, at0, q0, fired, at1, q1, at, q, uptime);
        TableOf(at, next, inUse, pending, q);
      }
    }

    /**
     The timers that are due go off, each once and in the order of their times,
     though the handlers set timers meanwhile; those that are left are later,
     and are those that were not due and those that the handlers set. The tick
     panics exactly if there is no timer and the cached time has come, as at boot
     and once the only timer has been removed.
     */
    method DoTicks() returns (fired: seq<int>, panicked: bool)
      requires Ordered() && ArmsOk() && uptime < TIMER_NEVER
      modifies `at, `next, `inUse, `pending, `nextTimeout, `q, `firings
      ensures Ordered() && (old(Valid()) ==> Valid()) && |at| == |old(at)|
      ensures panicked <==> old(q) == [] && old(nextTimeout) <= uptime
      ensures InTable(old(at), old(q)) && fired == old(q)[..Before(old(at), old(q), uptime + 1)]
      ensures Sorted(old(at), fired) && NoDup(fired) && firings == old(firings) + |fired|
      ensures forall i :: 0 <= i < |q| ==> at[q[i]] > uptime
      ensures forall x :: x in old(q) && x !in fired ==> x in q && at[x] == old(at)[x]
      ensures Armed(handler, old(firings), old(at), old(q), fired, at, q, uptime)
    {
      hide Linked;
      hide Sorted;
      hide Before;
      hide NoDup;
      hide InTable;
      hide Progress;
      hide CallsOk;
      hide Armed;
      fired, panicked := [], false;
      TableOf(at, next, inUse, pending, q);
      Start(at, q, uptime);
      ArmedStart(handler, firings, at, q, uptime);
      while nextTimeout <= uptime
        invariant Ordered() && InTable(at, q) && Progress(old(at), old(q), at, q, fired, uptime)
        invariant if old(q) == [] then q == [] && nextTimeout == old(nextTimeout) else Valid()
        invariant |at| == |old(at)| && firings == old(firings) + |fired|
        invariant Armed(handler, old(firings), old(at), old(q), fired, at, q, uptime)
        decreases Before(at, q, uptime + 1)
      {
        var t := Turn(old(at), old(q), fired, old(firings));
        if t == END {
          panicked := true;
          break;
        }
        fired := fired + [t];
      }
      Ended(old(at), old(next), old(inUse), old(pending), old(q), at, next, inUse, pending, q, fired, uptime);
    }

    /**
     A tick at which the only timer has been removed before it went off panics
     once its time has come, and no earlier.
     */
    method RemoveThenTick(t: nat, now: int) returns (panicked: bool)
      requires Valid() && q == [t] && uptime <= now < TIMER_NEVER
      requires CallsOk(handler, |at|, now)
      modifies this
      ensures panicked <==> now >= old(nextTimeout)
    {
      hide Linked;
      hide Without;
      hide CallsOk;
      WithoutOnly(t);
      RemoveTimer(t);
      uptime := now;
      var fired;
      fired, panicked := DoTicks();
    }
  }

  lemma WithoutOnly(t: int)
    ensures Without([t], t) == []
  {
  }
}
