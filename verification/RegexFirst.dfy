/**
 Ordered backtracking finds the first of all ways: the same unfolding of what is
 still to be matched, once for the search and once for any way, with the ways
 compared by the first decision in which they differ.
 */
module RegexFirst {
  import opened RegexSyntax
  import opened RegexMeaning
  import opened RegexWays

  // ----- ways of what is still to be matched -----

  ghost predicate GoesI(it: Item, s: Text, i: nat, j: nat, t: Way)
    requires i <= j <= |s|
  {
    match it
    case Do(re) => Goes(re, s, i, j, t)
    case Choice(a) => GoesA(a, s, i, j, t)
    case PlusLoop(x) => GoesAgain(x, s, i, j, t)
    case Close(n) => i == j && t == [Shut(n, i)]
    case _ => i == j && t == []
  }

  ghost predicate GoesS(st: Stack, s: Text, i: nat, j: nat, t: Way)
    requires i <= j <= |s|
    decreases st
  {
    match st
    case Done => i == j && t == []
    case Push(it, k) =>
      exists m: nat, c: nat :: i <= m <= j && c <= |t| && GoesI(it, s, i, m, t[..c]) && GoesS(k, s, m, j, t[c..])
  }

  lemma Join(it: Item, k: Stack, s: Text, i: nat, m: nat, j: nat, t1: Way, t2: Way)
    requires i <= m <= j <= |s| && GoesI(it, s, i, m, t1) && GoesS(k, s, m, j, t2)
    ensures GoesS(Push(it, k), s, i, j, t1 + t2)
  {
    var t, c := t1 + t2, |t1|;
    assert t[..c] == t1 && t[c..] == t2;
  }

  lemma Part(it: Item, k: Stack, s: Text, i: nat, j: nat, t: Way) returns (m: nat, t1: Way, t2: Way)
    requires i <= j <= |s| && GoesS(Push(it, k), s, i, j, t)
    ensures i <= m <= j && t == t1 + t2 && GoesI(it, s, i, m, t1) && GoesS(k, s, m, j, t2)
  {
    var c: nat;
    m, c :| i <= m <= j && c <= |t| && GoesI(it, s, i, m, t[..c]) && GoesS(k, s, m, j, t[c..]);
    t1, t2 := t[..c], t[c..];
  }

  /** An item that is passed without a sign. */
  lemma Silent(it: Item, k: Stack, s: Text, i: nat, j: nat, t: Way)
    requires i <= j <= |s| && (it.Skip? || it.Hop?)
    ensures GoesS(Push(it, k), s, i, j, t) <==> GoesS(k, s, i, j, t)
  {
    hide GoesS;
    if GoesS(Push(it, k), s, i, j, t) {
      var m, t1, t2 := Part(it, k, s, i, j, t);
      assert t1 + t2 == t2;
    }
    if GoesS(k, s, i, j, t) {
      Join(it, k, s, i, i, j, [], t);
      assert [] + t == t;
    }
  }

  // What is unfolded goes the way that the whole goes, after the whole's own sign.

  lemma GroupFold(n: nat, alts: Alts, k: Stack, s: Text, i: nat, j: nat, t: Way)
    requires i <= j <= |s| && GoesS(Push(Choice(alts), Push(Close(n), k)), s, i, j, t)
    ensures GoesS(Push(Do(Group(n, alts)), k), s, i, j, [Open(n, i)] + t)
  {
    hide GoesS;
    var m, t1, t2 := Part(Choice(alts), Push(Close(n), k), s, i, j, t);
    var m', t3, t4 := Part(Close(n), k, s, m, j, t2);
    GroupOne(n, alts, s, i, m, t1);
    Join(Do(Group(n, alts)), k, s, i, m, j, [Open(n, i)] + t1 + [Shut(n, m)], t4);
    assert [Open(n, i)] + t == [Open(n, i)] + t1 + [Shut(n, m)] + t4;
  }

  lemma GroupUnfold(n: nat, alts: Alts, k: Stack, s: Text, i: nat, j: nat, t: Way)
    requires i <= j <= |s| && GoesS(Push(Do(Group(n, alts)), k), s, i, j, t)
    ensures t != [] && t[0] == Open(n, i) && GoesS(Push(Choice(alts), Push(Close(n), k)), s, i, j, t[1..])
  {
    hide GoesS;
    var m, t1, t2 := Part(Do(Group(n, alts)), k, s, i, j, t);
    var inner := t1[1..|t1| - 1];
    Join(Close(n), k, s, m, m, j, [Shut(n, m)], t2);
    Join(Choice(alts), Push(Close(n), k), s, i, m, j, inner, [Shut(n, m)] + t2);
    assert t[1..] == inner + ([Shut(n, m)] + t2);
  }

  /** A decision to stop. */
  predicate CanStop(it: Item) {
    it.PlusLoop? || (it.Do? && (it.re.Star? || it.re.Opt?))
  }

  lemma StopFold(it: Item, k: Stack, s: Text, i: nat, j: nat, t: Way)
    requires i <= j <= |s| && CanStop(it) && GoesS(k, s, i, j, t)
    ensures GoesS(Push(it, k), s, i, j, [Pick(1)] + t)
  {
    hide GoesS;
    Join(it, k, s, i, i, j, [Pick(1)], t);
  }

  /** The head of a loop goes the ways of the loop. */
  lemma LoopItem(it: Item, x: Re, s: Text, i: nat, j: nat, t: Way)
    requires i <= j <= |s| && (it == PlusLoop(x) || it == Do(Star(x)))
    ensures GoesI(it, s, i, j, t) <==> GoesAgain(x, s, i, j, t)
  {
    hide GoesAgain;
  }

  lemma AgainFold(it: Item, x: Re, k: Stack, s: Text, i: nat, m: nat, l: nat, j: nat, t1: Way, t2: Way, t3: Way)
    requires i <= m <= l <= j <= |s| && Wf(x) && HasWidth(x) && (it == PlusLoop(x) || it == Do(Star(x)))
    requires Goes(x, s, i, m, t1) && GoesAgain(x, s, m, l, t2) && GoesS(k, s, l, j, t3)
    ensures GoesS(Push(it, k), s, i, j, [Pick(0)] + (t1 + (t2 + t3)))
  {
    hide GoesS;
    hide GoesI;
    hide Goes;
    hide GoesAgain;
    hide Wf;
    WayWide(x, s, i, m, t1);
    AgainOne(x, s, i, m, l, t1, t2);
    LoopItem(it, x, s, i, l, [Pick(0)] + t1 + t2);
    Join(it, k, s, i, l, j, [Pick(0)] + t1 + t2, t3);
    assert [Pick(0)] + (t1 + (t2 + t3)) == [Pick(0)] + t1 + t2 + t3;
  }

  lemma StarFold(x: Re, k: Stack, s: Text, i: nat, j: nat, t: Way)
    requires i <= j <= |s| && Wf(Star(x)) && GoesS(Push(Do(x), Push(Hop, Push(Do(Star(x)), k))), s, i, j, t)
    ensures GoesS(Push(Do(Star(x)), k), s, i, j, [Pick(0)] + t)
  {
    hide GoesS;
    hide GoesAgain;
    var loop := Push(Do(Star(x)), k);
    var m, t1, t2 := Part(Do(x), Push(Hop, loop), s, i, j, t);
    Silent(Hop, loop, s, m, j, t2);
    var l, t3, t4 := Part(Do(Star(x)), k, s, m, j, t2);
    AgainFold(Do(Star(x)), x, k, s, i, m, l, j, t1, t3, t4);
  }

  lemma PlusLoopFold(x: Re, k: Stack, s: Text, i: nat, j: nat, t: Way)
    requires i <= j <= |s| && Wf(Plus(x)) && GoesS(Push(Hop, Push(Do(Plus(x)), k)), s, i, j, t)
    ensures GoesS(Push(PlusLoop(x), k), s, i, j, [Pick(0)] + t)
  {
    hide GoesS;
    hide Goes;
    hide GoesAgain;
    Silent(Hop, Push(Do(Plus(x)), k), s, i, j, t);
    var l, t1, t2 := Part(Do(Plus(x)), k, s, i, j, t);
    var m, t3, t4 := PlusTwo(x, s, i, l, t1);
    AgainFold(PlusLoop(x), x, k, s, i, m, l, j, t3, t4, t2);
    assert t == t3 + (t4 + t2);
  }

  /** One more x, or no more. */
  lemma AgainUnfold(it: Item, x: Re, k: Stack, s: Text, i: nat, j: nat, t: Way)
    returns (more: bool, m: nat, l: nat, t1: Way, t2: Way, t3: Way)
    requires i <= j <= |s| && (it == PlusLoop(x) || it == Do(Star(x))) && GoesS(Push(it, k), s, i, j, t)
    ensures t != [] && t[0] == Pick(if more then 0 else 1)
    ensures !more ==> GoesS(k, s, i, j, t[1..])
    ensures more ==>
              && i <= m <= l <= j && t[1..] == t1 + (t2 + t3)
              && Goes(x, s, i, m, t1) && GoesAgain(x, s, m, l, t2) && GoesS(k, s, l, j, t3)
  {
    hide GoesS;
    hide GoesI;
    hide Goes;
    hide GoesAgain;
    m, t1, t2 := 0, [], [];
    var t0;
    l, t0, t3 := Part(it, k, s, i, j, t);
    LoopItem(it, x, s, i, l, t0);
    more := t0 != [Pick(1)];
    if more {
      m, t1, t2 := AgainTwo(x, s, i, l, t0);
      assert t[1..] == t1 + (t2 + t3);
    } else {
      AgainStop(x, s, i, l);
      assert t[1..] == t3;
    }
  }

  lemma StarUnfold(x: Re, k: Stack, s: Text, i: nat, j: nat, t: Way)
    requires i <= j <= |s| && GoesS(Push(Do(Star(x)), k), s, i, j, t)
    ensures t != []
    ensures || (t[0] == Pick(0) && GoesS(Push(Do(x), Push(Hop, Push(Do(Star(x)), k))), s, i, j, t[1..]))
            || (t[0] == Pick(1) && GoesS(k, s, i, j, t[1..]))
  {
    hide GoesS;
    hide GoesAgain;
    var loop := Push(Do(Star(x)), k);
    var more, m, l, t1, t2, t3 := AgainUnfold(Do(Star(x)), x, k, s, i, j, t);
    if more {
      Join(Do(Star(x)), k, s, m, l, j, t2, t3);
      Silent(Hop, loop, s, m, j, t2 + t3);
      Join(Do(x), Push(Hop, loop), s, i, m, j, t1, t2 + t3);
    }
  }

  lemma PlusLoopUnfold(x: Re, k: Stack, s: Text, i: nat, j: nat, t: Way)
    requires i <= j <= |s| && GoesS(Push(PlusLoop(x), k), s, i, j, t)
    ensures t != []
    ensures || (t[0] == Pick(0) && GoesS(Push(Hop, Push(Do(Plus(x)), k)), s, i, j, t[1..]))
            || (t[0] == Pick(1) && GoesS(k, s, i, j, t[1..]))
  {
    hide GoesS;
    hide Goes;
    hide GoesAgain;
    var more, m, l, t1, t2, t3 := AgainUnfold(PlusLoop(x), x, k, s, i, j, t);
    if more {
      PlusOne(x, s, i, m, l, t1, t2);
      Join(Do(Plus(x)), k, s, i, l, j, t1 + t2, t3);
      Silent(Hop, Push(Do(Plus(x)), k), s, i, j, t1 + t2 + t3);
      assert t[1..] == t1 + t2 + t3;
    }
  }

  lemma PlusFold(x: Re, k: Stack, s: Text, i: nat, j: nat, t: Way)
    requires i <= j <= |s| && GoesS(Push(Do(x), Push(PlusLoop(x), k)), s, i, j, t)
    ensures GoesS(Push(Do(Plus(x)), k), s, i, j, t)
  {
    hide GoesS;
    hide Goes;
    hide GoesAgain;
    var m, t1, t2 := Part(Do(x), Push(PlusLoop(x), k), s, i, j, t);
    var l, t3, t4 := Part(PlusLoop(x), k, s, m, j, t2);
    PlusOne(x, s, i, m, l, t1, t3);
    Join(Do(Plus(x)), k, s, i, l, j, t1 + t3, t4);
    assert t == t1 + t3 + t4;
  }

  lemma PlusUnfold(x: Re, k: Stack, s: Text, i: nat, j: nat, t: Way)
    requires i <= j <= |s| && GoesS(Push(Do(Plus(x)), k), s, i, j, t)
    ensures GoesS(Push(Do(x), Push(PlusLoop(x), k)), s, i, j, t)
  {
    hide GoesS;
    hide Goes;
    hide GoesAgain;
    var l, t1, t2 := Part(Do(Plus(x)), k, s, i, j, t);
    var m, t3, t4 := PlusTwo(x, s, i, l, t1);
    Join(PlusLoop(x), k, s, m, l, j, t4, t2);
    Join(Do(x), Push(PlusLoop(x), k), s, i, m, j, t3, t4 + t2);
    assert t == t3 + (t4 + t2);
  }

  lemma OptFold(x: Re, k: Stack, s: Text, i: nat, j: nat, t: Way)
    requires i <= j <= |s| && GoesS(Push(Do(x), Push(Skip, k)), s, i, j, t)
    ensures GoesS(Push(Do(Opt(x)), k), s, i, j, [Pick(0)] + t)
  {
    hide GoesS;
    var m, t1, t2 := Part(Do(x), Push(Skip, k), s, i, j, t);
    Silent(Skip, k, s, m, j, t2);
    assert ([Pick(0)] + t1)[1..] == t1;
    Join(Do(Opt(x)), k, s, i, m, j, [Pick(0)] + t1, t2);
    assert [Pick(0)] + t == [Pick(0)] + t1 + t2;
  }

  lemma OptUnfold(x: Re, k: Stack, s: Text, i: nat, j: nat, t: Way)
    requires i <= j <= |s| && GoesS(Push(Do(Opt(x)), k), s, i, j, t)
    ensures t != []
    ensures || (t[0] == Pick(0) && GoesS(Push(Do(x), Push(Skip, k)), s, i, j, t[1..]))
            || (t[0] == Pick(1) && GoesS(k, s, i, j, t[1..]))
  {
    hide GoesS;
    var m, t1, t2 := Part(Do(Opt(x)), k, s, i, j, t);
    if t1[0] == Pick(0) {
      Silent(Skip, k, s, m, j, t2);
      Join(Do(x), Push(Skip, k), s, i, m, j, t1[1..], t2);
      assert t[1..] == t1[1..] + t2;
    } else {
      assert t[1..] == t2;
    }
  }

  lemma {:induction false} PrependJoin(b: Branch, k: Stack, s: Text, i: nat, m: nat, j: nat, t1: Way, t2: Way)
    requires i <= m <= j <= |s| && GoesB(b, s, i, m, t1) && GoesS(k, s, m, j, t2)
    ensures GoesS(Prepend(b, k), s, i, j, t1 + t2)
    decreases b
  {
    hide GoesS;
    if b.Cons? {
      var l: nat, c: nat :|
        i <= l <= m && c <= |t1| && Goes(b.head, s, i, l, t1[..c]) && GoesB(b.tail, s, l, m, t1[c..]);
      PrependJoin(b.tail, k, s, l, m, j, t1[c..], t2);
      Join(Do(b.head), Prepend(b.tail, k), s, i, l, j, t1[..c], t1[c..] + t2);
      assert t1 + t2 == t1[..c] + (t1[c..] + t2);
    } else {
      assert t1 + t2 == t2;
    }
  }

  lemma {:induction false} PrependPart(b: Branch, k: Stack, s: Text, i: nat, j: nat, t: Way)
    returns (m: nat, t1: Way, t2: Way)
    requires i <= j <= |s| && GoesS(Prepend(b, k), s, i, j, t)
    ensures i <= m <= j && t == t1 + t2 && GoesB(b, s, i, m, t1) && GoesS(k, s, m, j, t2)
    decreases b
  {
    hide GoesS;
    if b.Cons? {
      var l, t3, t4 := Part(Do(b.head), Prepend(b.tail, k), s, i, j, t);
      var t5;
      m, t5, t2 := PrependPart(b.tail, k, s, l, j, t4);
      BranchOne(b.head, b.tail, s, i, l, m, t3, t5);
      t1 := t3 + t5;
      assert t == t1 + t2;
    } else {
      m, t1, t2 := i, [], t;
      assert t == t1 + t2;
    }
  }

  lemma ChoiceFold(a: Alts, k: Stack, s: Text, i: nat, j: nat, t: Way, c: nat)
    requires i <= j <= |s| && a.ACons? && c < 2
    requires GoesS(if c == 0 then Prepend(a.first, k) else Push(Choice(a.rest), k), s, i, j, t)
    ensures GoesS(Push(Choice(a), k), s, i, j, [Pick(c)] + t)
  {
    hide GoesS;
    var m, t1, t2;
    if c == 0 {
      m, t1, t2 := PrependPart(a.first, k, s, i, j, t);
    } else {
      m, t1, t2 := Part(Choice(a.rest), k, s, i, j, t);
    }
    assert ([Pick(c)] + t1)[1..] == t1;
    Join(Choice(a), k, s, i, m, j, [Pick(c)] + t1, t2);
    assert [Pick(c)] + t == [Pick(c)] + t1 + t2;
  }

  lemma ChoiceUnfold(a: Alts, k: Stack, s: Text, i: nat, j: nat, t: Way)
    requires i <= j <= |s| && a.ACons? && GoesS(Push(Choice(a), k), s, i, j, t)
    ensures t != []
    ensures || (t[0] == Pick(0) && GoesS(Prepend(a.first, k), s, i, j, t[1..]))
            || (t[0] == Pick(1) && a.rest.ACons? && GoesS(Push(Choice(a.rest), k), s, i, j, t[1..]))
  {
    hide GoesS;
    var m, t1, t2 := Part(Choice(a), k, s, i, j, t);
    assert t[1..] == t1[1..] + t2;
    if t1[0] == Pick(0) {
      PrependJoin(a.first, k, s, i, m, j, t1[1..], t2);
    } else {
      Join(Choice(a.rest), k, s, i, m, j, t1[1..], t2);
    }
  }

  lemma CloseFold(n: nat, k: Stack, s: Text, i: nat, j: nat, t: Way)
    requires i <= j <= |s| && GoesS(k, s, i, j, t)
    ensures GoesS(Push(Close(n), k), s, i, j, [Shut(n, i)] + t)
  {
    hide GoesS;
    Join(Close(n), k, s, i, i, j, [Shut(n, i)], t);
  }

  lemma CloseUnfold(n: nat, k: Stack, s: Text, i: nat, j: nat, t: Way)
    requires i <= j <= |s| && GoesS(Push(Close(n), k), s, i, j, t)
    ensures t != [] && t[0] == Shut(n, i) && GoesS(k, s, i, j, t[1..])
  {
    hide GoesS;
    var m, t1, t2 := Part(Close(n), k, s, i, j, t);
    assert t[1..] == t2;
  }

  /** How far a tree without parts reaches, if it matches at all. */
  function Reach(re: Re, i: nat): nat
    requires !re.Group? && !re.Star? && !re.Plus? && !re.Opt?
  {
    if re.Lit? then i + |re.text| else if HasWidth(re) then i + 1 else i
  }

  lemma LeafFold(re: Re, k: Stack, s: Text, i: nat, j: nat, t: Way)
    requires i <= j <= |s| && !re.Group? && !re.Star? && !re.Plus? && !re.Opt?
    ensures var m := Reach(re, i);
            GoesS(Push(Do(re), k), s, i, j, t) <==> m <= j && Goes(re, s, i, m, []) && GoesS(k, s, m, j, t)
  {
    hide GoesS;
    var m := Reach(re, i);
    if GoesS(Push(Do(re), k), s, i, j, t) {
      var m', t1, t2 := Part(Do(re), k, s, i, j, t);
      assert t1 + t2 == t2;
    }
    if m <= j && Goes(re, s, i, m, []) && GoesS(k, s, m, j, t) {
      Join(Do(re), k, s, i, m, j, [], t);
      assert [] + t == t;
    }
  }

  // ----- the order of ways, and what a way captures -----

  /** Way t comes before way t': at the first place where they differ it decides for the earlier. */
  ghost predicate Precedes(t: Way, t': Way) {
    t == t' || exists p: nat :: Differ(t, t', p)
  }

  ghost predicate Differ(t: Way, t': Way, p: nat) {
    p < |t| && p < |t'| && t[..p] == t'[..p] && t[p].Pick? && t'[p].Pick? && t[p].choice < t'[p].choice
  }

  lemma PrecedesOn(e: Sign, t: Way, t': Way)
    requires Precedes(t, t')
    ensures Precedes([e] + t, [e] + t')
  {
    if t != t' {
      var p: nat :| Differ(t, t', p);
      assert ([e] + t)[..p + 1] == [e] + t[..p] && ([e] + t')[..p + 1] == [e] + t'[..p];
      assert Differ([e] + t, [e] + t', p + 1);
    }
  }

  lemma PickFirst(t: Way, t': Way)
    ensures Precedes([Pick(0)] + t, [Pick(1)] + t')
  {
    assert Differ([Pick(0)] + t, [Pick(1)] + t', 0);
  }

  /** Where each pair of parentheses was last opened, and where last shut. */
  function Opens(t: Way): map<nat, nat> {
    if t == [] then map[]
    else if t[0].Open? && t[0].no !in Opens(t[1..]) then Opens(t[1..])[t[0].no := t[0].at]
    else Opens(t[1..])
  }

  function Shuts(t: Way): map<nat, nat> {
    if t == [] then map[]
    else if t[0].Shut? && t[0].no !in Shuts(t[1..]) then Shuts(t[1..])[t[0].no := t[0].at]
    else Shuts(t[1..])
  }

  lemma Signed(e: Sign, t: Way)
    ensures Opens([e] + t) == if e.Open? && e.no !in Opens(t) then Opens(t)[e.no := e.at] else Opens(t)
    ensures Shuts([e] + t) == if e.Shut? && e.no !in Shuts(t) then Shuts(t)[e.no := e.at] else Shuts(t)
  {
    assert ([e] + t)[1..] == t;
  }

  // ----- the search finds the first way -----

  /** Outcome r is that of way t, which is the first of all from i. */
  ghost predicate First(st: Stack, s: Text, i: nat, r: Outcome, t: Way)
    requires i <= |s|
  {
    match r
    case Miss => forall j: nat, u: Way :: i <= j <= |s| ==> !GoesS(st, s, i, j, u)
    case Hit(end, starts, ends) =>
      && i <= end <= |s| && GoesS(st, s, i, end, t) && starts == Opens(t) && ends == Shuts(t)
      && forall j: nat, u: Way :: i <= j <= |s| && GoesS(st, s, i, j, u) ==> Precedes(t, u)
  }

  /** Two stacks with the same ways. */
  lemma FirstSame(st: Stack, st': Stack, s: Text, i: nat, i': nat, r: Outcome, t: Way)
    requires i <= i' <= |s| && First(st', s, i', r, t)
    requires forall j: nat, u: Way :: i <= j <= |s| ==> (GoesS(st, s, i, j, u) <==> i' <= j && GoesS(st', s, i', j, u))
    ensures First(st, s, i, r, t)
  {
    hide GoesS;
  }

  /** A stack whose ways all begin with one sign. */
  lemma FirstSigned(st: Stack, st': Stack, s: Text, i: nat, r: Outcome, r': Outcome, t: Way, e: Sign)
    requires i <= |s| && First(st', s, i, r', t)
    requires forall j: nat, u: Way :: i <= j <= |s| && GoesS(st, s, i, j, u) ==>
               u != [] && u[0] == e && GoesS(st', s, i, j, u[1..])
    requires r'.Hit? ==> i <= r'.end <= |s| && GoesS(st, s, i, r'.end, [e] + t)
    requires r == if r'.Miss? then Miss else Hit(r'.end, Opens([e] + t), Shuts([e] + t))
    ensures First(st, s, i, r, [e] + t)
  {
    hide GoesS;
    hide Opens;
    hide Shuts;
    hide Precedes;
    forall j: nat, u: Way | i <= j <= |s| && GoesS(st, s, i, j, u)
      ensures r'.Hit? && Precedes([e] + t, u)
    {
      assert u == [e] + u[1..];
      if r'.Hit? {
        PrecedesOn(e, t, u[1..]);
      }
    }
  }

  /** A way that decides between two stacks. */
  ghost predicate Picked(st0: Stack, st1: Stack, s: Text, i: nat, j: nat, u: Way)
    requires i <= j <= |s|
  {
    u != [] &&
    ((u[0] == Pick(0) && GoesS(st0, s, i, j, u[1..])) || (u[0] == Pick(1) && GoesS(st1, s, i, j, u[1..])))
  }

  /** A stack whose ways begin with a decision: the first choice has precedence, if it leads anywhere. */
  lemma FirstPicked(st: Stack, st0: Stack, st1: Stack, s: Text, i: nat, r0: Outcome, t0: Way, r1: Outcome, t1: Way)
    returns (t: Way)
    requires i <= |s| && First(st0, s, i, r0, t0) && (r0.Miss? ==> First(st1, s, i, r1, t1))
    requires forall j: nat, u: Way :: i <= j <= |s| && GoesS(st, s, i, j, u) ==> Picked(st0, st1, s, i, j, u)
    requires r0.Hit? ==> i <= r0.end <= |s| && GoesS(st, s, i, r0.end, [Pick(0)] + t0)
    requires r0.Miss? && r1.Hit? ==> i <= r1.end <= |s| && GoesS(st, s, i, r1.end, [Pick(1)] + t1)
    ensures First(st, s, i, if r0.Hit? then r0 else r1, t)
  {
    hide GoesS;
    hide Opens;
    hide Shuts;
    hide Precedes;
    t := if r0.Hit? then [Pick(0)] + t0 else [Pick(1)] + t1;
    Signed(Pick(0), t0);
    Signed(Pick(1), t1);
    var r := if r0.Hit? then r0 else r1;
    forall j: nat, u: Way | i <= j <= |s| && GoesS(st, s, i, j, u)
      ensures r.Hit? && Precedes(t, u)
    {
      assert u == [u[0]] + u[1..];
      if r0.Hit? {
        if u[0] == Pick(0) {
          PrecedesOn(Pick(0), t0, u[1..]);
        } else {
          PickFirst(t0, u[1..]);
        }
      } else if r1.Hit? {
        PrecedesOn(Pick(1), t1, u[1..]);
      }
    }
  }

  lemma {:induction false} RunFirst(st: Stack, s: Text, i: nat) returns (t: Way)
    requires StackWf(st) && i <= |s|
    ensures First(st, s, i, Run(st, s, i), t)
    decreases |s| - i, StackCost(st), 1
  {
    hide First;
    if st.Done? {
      t := [];
      FirstDone(s, i);
      return;
    }
    var it, k := st.top, st.rest;
    match it {
      case Do(re) =>
        t := RunDoFirst(re, k, s, i);
      case Choice(a) =>
        PrependWf(a.first, k);
        PrependCost(a.first, k);
        var t0 := RunFirst(Prepend(a.first, k), s, i);
        var t1 := [];
        if Run(Prepend(a.first, k), s, i).Miss? && a.rest.ACons? {
          t1 := RunFirst(Push(Choice(a.rest), k), s, i);
        }
        t := ChoiceFirst(a, k, s, i, t0, t1);
      case PlusLoop(x) =>
        PushCost(Hop, Do(Plus(x)), k);
        var again := Push(Hop, Push(Do(Plus(x)), k));
        var t0 := RunFirst(again, s, i);
        var t1 := [];
        if Run(again, s, i).Miss? {
          t1 := RunFirst(k, s, i);
        }
        t := PlusLoopFirst(x, k, s, i, t0, t1);
      case Close(n) =>
        var t' := RunFirst(k, s, i);
        CloseFirst(n, k, s, i, t');
        t := [Shut(n, i)] + t';
      case _ =>
        t := RunFirst(k, s, i);
        SilentFirst(it, k, s, i, t);
    }
  }

  lemma FirstDone(s: Text, i: nat)
    requires i <= |s|
    ensures First(Done, s, i, Run(Done, s, i), [])
  {
  }

  lemma SilentFirst(it: Item, k: Stack, s: Text, i: nat, t: Way)
    requires StackWf(k) && i <= |s| && (it.Skip? || it.Hop?) && First(k, s, i, Run(k, s, i), t)
    ensures First(Push(it, k), s, i, Run(Push(it, k), s, i), t)
  {
    hide GoesS;
    forall j: nat, u: Way | i <= j <= |s| ensures GoesS(Push(it, k), s, i, j, u) <==> GoesS(k, s, i, j, u) {
      Silent(it, k, s, i, j, u);
    }
    FirstSame(Push(it, k), k, s, i, i, Run(k, s, i), t);
  }

  lemma CloseFirst(n: nat, k: Stack, s: Text, i: nat, t: Way)
    requires StackWf(Push(Close(n), k)) && i <= |s| && First(k, s, i, Run(k, s, i), t)
    ensures First(Push(Close(n), k), s, i, Run(Push(Close(n), k), s, i), [Shut(n, i)] + t)
  {
    hide GoesS;
    var st, r' := Push(Close(n), k), Run(k, s, i);
    forall j: nat, u: Way | i <= j <= |s| && GoesS(st, s, i, j, u)
      ensures u != [] && u[0] == Shut(n, i) && GoesS(k, s, i, j, u[1..])
    {
      CloseUnfold(n, k, s, i, j, u);
    }
    if r'.Hit? {
      CloseFold(n, k, s, i, r'.end, t);
    }
    Signed(Shut(n, i), t);
    FirstSigned(st, k, s, i, Run(st, s, i), r', t, Shut(n, i));
  }

  lemma ChoiceFirst(a: Alts, k: Stack, s: Text, i: nat, t0: Way, t1: Way) returns (t: Way)
    requires a.ACons? && WfA(a) && StackWf(k) && StackWf(Prepend(a.first, k)) && i <= |s|
    requires First(Prepend(a.first, k), s, i, Run(Prepend(a.first, k), s, i), t0)
    requires Run(Prepend(a.first, k), s, i).Miss? && a.rest.ACons? ==>
               First(Push(Choice(a.rest), k), s, i, Run(Push(Choice(a.rest), k), s, i), t1)
    ensures First(Push(Choice(a), k), s, i, Run(Push(Choice(a), k), s, i), t)
  {
    hide GoesS;
    hide Prepend;
    var st, st0, st1 := Push(Choice(a), k), Prepend(a.first, k), Push(Choice(a.rest), k);
    var r0 := Run(st0, s, i);
    forall j: nat, u: Way | i <= j <= |s| && GoesS(st, s, i, j, u) ensures Picked(st0, st1, s, i, j, u) {
      ChoiceUnfold(a, k, s, i, j, u);
    }
    if r0.Hit? {
      ChoiceFold(a, k, s, i, r0.end, t0, 0);
      t := FirstPicked(st, st0, st1, s, i, r0, t0, Miss, t1);
    } else if a.rest.ACons? {
      var r1 := Run(st1, s, i);
      if r1.Hit? {
        ChoiceFold(a, k, s, i, r1.end, t1, 1);
      }
      t := FirstPicked(st, st0, st1, s, i, r0, t0, r1, t1);
    } else {
      forall j: nat, u: Way | i <= j <= |s| ensures !GoesS(st1, s, i, j, u) {
        if GoesS(st1, s, i, j, u) {
          var m, u1, u2 := Part(Choice(a.rest), k, s, i, j, u);
        }
      }
      t := FirstPicked(st, st0, st1, s, i, r0, t0, Miss, t1);
    }
  }

  /** What a loop or an option does: go on with st0, or stop. */
  lemma StopFirst(it: Item, k: Stack, st0: Stack, s: Text, i: nat, t0: Way, t1: Way) returns (t: Way)
    requires i <= |s| && CanStop(it) && StackWf(k) && StackWf(st0) && StackWf(Push(it, k))
    requires First(st0, s, i, Run(st0, s, i), t0) && (Run(st0, s, i).Miss? ==> First(k, s, i, Run(k, s, i), t1))
    requires forall j: nat, u: Way :: i <= j <= |s| && GoesS(Push(it, k), s, i, j, u) ==> Picked(st0, k, s, i, j, u)
    requires forall j: nat, u: Way :: i <= j <= |s| && GoesS(st0, s, i, j, u) ==>
               GoesS(Push(it, k), s, i, j, [Pick(0)] + u)
    ensures First(Push(it, k), s, i, if Run(st0, s, i).Hit? then Run(st0, s, i) else Run(k, s, i), t)
  {
    hide GoesS;
    hide Run;
    hide Picked;
    var r0, r1 := Run(st0, s, i), Run(k, s, i);
    if r0.Miss? && r1.Hit? {
      StopFold(it, k, s, i, r1.end, t1);
    }
    t := FirstPicked(Push(it, k), st0, k, s, i, r0, t0, r1, t1);
  }

  lemma PlusLoopFirst(x: Re, k: Stack, s: Text, i: nat, t0: Way, t1: Way) returns (t: Way)
    requires i <= |s| && Wf(Plus(x)) && StackWf(k)
    requires var again := Push(Hop, Push(Do(Plus(x)), k));
             && First(again, s, i, Run(again, s, i), t0)
             && (Run(again, s, i).Miss? ==> First(k, s, i, Run(k, s, i), t1))
    ensures First(Push(PlusLoop(x), k), s, i, Run(Push(PlusLoop(x), k), s, i), t)
  {
    hide GoesS;
    hide First;
    var st, again := Push(PlusLoop(x), k), Push(Hop, Push(Do(Plus(x)), k));
    forall j: nat, u: Way | i <= j <= |s| && GoesS(st, s, i, j, u) ensures Picked(again, k, s, i, j, u) {
      PlusLoopUnfold(x, k, s, i, j, u);
    }
    forall j: nat, u: Way | i <= j <= |s| && GoesS(again, s, i, j, u) ensures GoesS(st, s, i, j, [Pick(0)] + u) {
      PlusLoopFold(x, k, s, i, j, u);
    }
    t := StopFirst(PlusLoop(x), k, again, s, i, t0, t1);
    assert Run(Push(Skip, k), s, i) == Run(k, s, i);
  }

  lemma {:induction false} RunDoFirst(re: Re, k: Stack, s: Text, i: nat) returns (t: Way)
    requires Wf(re) && StackWf(k) && i <= |s|
    ensures First(Push(Do(re), k), s, i, RunDo(re, k, s, i), t)
    decreases |s| - i, StackCost(Push(Do(re), k)), 0
  {
    hide First;
    match re
    case Group(n, alts) =>
      PushCost(Choice(alts), Close(n), k);
      var t' := RunFirst(Push(Choice(alts), Push(Close(n), k)), s, i);
      GroupFirst(n, alts, k, s, i, t');
      t := [Open(n, i)] + t';
    case Star(x) =>
      var more := Push(Do(x), Push(Hop, Push(Do(re), k)));
      assert StackWf(Push(Do(re), k));
      var t0 := RunFirst(more, s, i);
      var t1 := [];
      if Run(more, s, i).Miss? {
        t1 := RunFirst(k, s, i);
      }
      t := StarFirst(x, k, s, i, t0, t1);
    case Plus(x) =>
      t := RunFirst(Push(Do(x), Push(PlusLoop(x), k)), s, i);
      PlusFirst(x, k, s, i, t);
    case Opt(x) =>
      PushCost(Do(x), Skip, k);
      var once := Push(Do(x), Push(Skip, k));
      var t0 := RunFirst(once, s, i);
      var t1 := [];
      if Run(once, s, i).Miss? {
        t1 := RunFirst(k, s, i);
      }
      t := OptFirst(x, k, s, i, t0, t1);
    case _ =>
      t := [];
      var m := Reach(re, i);
      if m <= |s| && Goes(re, s, i, m, []) {
        t := RunFirst(k, s, m);
      }
      LeafFirst(re, k, s, i, t);
  }

  lemma GroupFirst(n: nat, alts: Alts, k: Stack, s: Text, i: nat, t: Way)
    requires Wf(Group(n, alts)) && StackWf(k) && i <= |s|
    requires var inner := Push(Choice(alts), Push(Close(n), k)); First(inner, s, i, Run(inner, s, i), t)
    ensures First(Push(Do(Group(n, alts)), k), s, i, RunDo(Group(n, alts), k, s, i), [Open(n, i)] + t)
  {
    hide GoesS;
    var st, inner := Push(Do(Group(n, alts)), k), Push(Choice(alts), Push(Close(n), k));
    var r' := Run(inner, s, i);
    forall j: nat, u: Way | i <= j <= |s| && GoesS(st, s, i, j, u)
      ensures u != [] && u[0] == Open(n, i) && GoesS(inner, s, i, j, u[1..])
    {
      GroupUnfold(n, alts, k, s, i, j, u);
    }
    if r'.Hit? {
      GroupFold(n, alts, k, s, i, r'.end, t);
    }
    Signed(Open(n, i), t);
    FirstSigned(st, inner, s, i, RunDo(Group(n, alts), k, s, i), r', t, Open(n, i));
  }

  lemma StarFirst(x: Re, k: Stack, s: Text, i: nat, t0: Way, t1: Way) returns (t: Way)
    requires i <= |s| && Wf(Star(x)) && StackWf(k)
    requires var more := Push(Do(x), Push(Hop, Push(Do(Star(x)), k)));
             && StackWf(more) && First(more, s, i, Run(more, s, i), t0)
             && (Run(more, s, i).Miss? ==> First(k, s, i, Run(k, s, i), t1))
    ensures First(Push(Do(Star(x)), k), s, i, RunDo(Star(x), k, s, i), t)
  {
    hide GoesS;
    hide First;
    var st, more := Push(Do(Star(x)), k), Push(Do(x), Push(Hop, Push(Do(Star(x)), k)));
    forall j: nat, u: Way | i <= j <= |s| && GoesS(st, s, i, j, u) ensures Picked(more, k, s, i, j, u) {
      StarUnfold(x, k, s, i, j, u);
    }
    forall j: nat, u: Way | i <= j <= |s| && GoesS(more, s, i, j, u) ensures GoesS(st, s, i, j, [Pick(0)] + u) {
      StarFold(x, k, s, i, j, u);
    }
    t := StopFirst(Do(Star(x)), k, more, s, i, t0, t1);
    assert Run(Push(Skip, k), s, i) == Run(k, s, i);
  }

  lemma PlusFirst(x: Re, k: Stack, s: Text, i: nat, t: Way)
    requires i <= |s| && Wf(Plus(x)) && StackWf(k)
    requires var once := Push(Do(x), Push(PlusLoop(x), k)); First(once, s, i, Run(once, s, i), t)
    ensures First(Push(Do(Plus(x)), k), s, i, RunDo(Plus(x), k, s, i), t)
  {
    hide GoesS;
    hide First;
    var st, once := Push(Do(Plus(x)), k), Push(Do(x), Push(PlusLoop(x), k));
    forall j: nat, u: Way | i <= j <= |s| ensures GoesS(st, s, i, j, u) <==> GoesS(once, s, i, j, u) {
      if GoesS(st, s, i, j, u) {
        PlusUnfold(x, k, s, i, j, u);
      }
      if GoesS(once, s, i, j, u) {
        PlusFold(x, k, s, i, j, u);
      }
    }
    FirstSame(st, once, s, i, i, Run(once, s, i), t);
  }

  lemma OptFirst(x: Re, k: Stack, s: Text, i: nat, t0: Way, t1: Way) returns (t: Way)
    requires i <= |s| && Wf(Opt(x)) && StackWf(k)
    requires var once := Push(Do(x), Push(Skip, k));
             && First(once, s, i, Run(once, s, i), t0)
             && (Run(once, s, i).Miss? ==> First(k, s, i, Run(k, s, i), t1))
    ensures First(Push(Do(Opt(x)), k), s, i, RunDo(Opt(x), k, s, i), t)
  {
    hide GoesS;
    hide First;
    var st, once := Push(Do(Opt(x)), k), Push(Do(x), Push(Skip, k));
    forall j: nat, u: Way | i <= j <= |s| && GoesS(st, s, i, j, u) ensures Picked(once, k, s, i, j, u) {
      OptUnfold(x, k, s, i, j, u);
    }
    forall j: nat, u: Way | i <= j <= |s| && GoesS(once, s, i, j, u) ensures GoesS(st, s, i, j, [Pick(0)] + u) {
      OptFold(x, k, s, i, j, u);
    }
    t := StopFirst(Do(Opt(x)), k, once, s, i, t0, t1);
    assert Run(Push(Skip, k), s, i) == Run(k, s, i);
  }

  lemma LeafFirst(re: Re, k: Stack, s: Text, i: nat, t: Way)
    requires Wf(re) && StackWf(k) && i <= |s| && !re.Group? && !re.Star? && !re.Plus? && !re.Opt?
    requires var m := Reach(re, i); m <= |s| && Goes(re, s, i, m, []) ==> First(k, s, m, Run(k, s, m), t)
    ensures First(Push(Do(re), k), s, i, RunDo(re, k, s, i), t)
  {
    hide GoesS;
    var st, m := Push(Do(re), k), Reach(re, i);
    forall j: nat, u: Way | i <= j <= |s|
      ensures GoesS(st, s, i, j, u) <==> m <= j && Goes(re, s, i, m, []) && GoesS(k, s, m, j, u)
    {
      LeafFold(re, k, s, i, j, u);
    }
    if m <= |s| && Goes(re, s, i, m, []) {
      assert RunDo(re, k, s, i) == Run(k, s, m);
      FirstSame(st, k, s, i, m, Run(k, s, m), t);
    } else {
      if re.Lit? && LitStep(re.text, s, i) {
        LitStepFits(re.text, s, i);
      }
      assert RunDo(re, k, s, i) == Miss;
    }
  }
}
