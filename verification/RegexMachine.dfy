/**
 The backtracking machine that runs a compiled program on a subject. RegMatch
 is proved to return what the ordered meaning of the stack at its start node
 says, to stop on every well-linked program, and to stay inside the program and
 the subject.
 */
module RegexMachine {
  import opened RegexSyntax
  import opened RegexCode
  import opened RegexMeaning
  import opened RegexLinks

  // ----- strings in the program -----

  method StrChr(prog: Cells, p: nat, c: Ch, ghost t: Text) returns (found: bool)
    requires Has(prog, p, t + [NUL])
    ensures found <==> c in t
  {
    var i := p;
    assert Cell(prog, p, t + [NUL], 0);
    while prog[i] != NUL && prog[i] != c
      invariant p <= i <= p + |t|
      invariant c !in t[..i - p]
      invariant Cell(prog, p, t + [NUL], i - p)
      decreases p + |t| - i
    {
      assert t[..i + 1 - p] == t[..i - p] + [t[i - p]];
      i := i + 1;
      assert Cell(prog, p, t + [NUL], i - p);
    }
    found := prog[i] != NUL;
    assert !found ==> i == p + |t| && t[..i - p] == t;
  }

  method StrLen(prog: Cells, p: nat, ghost t: Text) returns (n: nat)
    requires Has(prog, p, t + [NUL])
    ensures n == |t|
  {
    n := 0;
    assert Cell(prog, p, t + [NUL], 0);
    while prog[p + n] != NUL
      invariant n <= |t|
      invariant Cell(prog, p, t + [NUL], n)
      decreases |t| - n
    {
      n := n + 1;
      assert Cell(prog, p, t + [NUL], n);
    }
  }

  /** Does the string at p stand in the subject at x? */
  method Compare(s: Text, x: nat, prog: Cells, p: nat, ghost t: Text) returns (same: bool)
    requires Has(prog, p, t + [NUL]) && x <= |s|
    ensures same <==> OccursAt(t, s, x)
  {
    ghost var code := t + [NUL];
    var n := 0;
    assert Cell(prog, p, code, 0);
    while x + n < |s| && prog[p + n] != NUL
      invariant n <= |t| && x + n <= |s|
      invariant forall k :: 0 <= k < n ==> s[x + k] == t[k]
      invariant Cell(prog, p, code, n)
      decreases |t| - n
    {
      if s[x + n] != prog[p + n] {
        assert t[n] != s[x + n];
        return false;
      }
      n := n + 1;
      assert Cell(prog, p, code, n);
    }
    assert s[x..x + n] == t[..n];
    same := prog[p + n] == NUL;
  }

  /** Does the string at p occur in the subject at or after i? */
  method StrStr(s: Text, i: nat, prog: Cells, p: nat, ghost t: Text) returns (found: bool)
    requires Has(prog, p, t + [NUL]) && i <= |s| && |t| > 0
    ensures found <==> Occurs(t, s, i)
  {
    var x := i;
    assert Cell(prog, p, t + [NUL], 0);
    while x < |s|
      invariant i <= x <= |s|
      invariant forall k: nat :: i <= k < x ==> !OccursAt(t, s, k)
    {
      assert OccursAt(t, s, x) ==> s[x..x + |t|][0] == t[0];
      if s[x] == prog[p] {
        var same := Compare(s, x, prog, p, t);
        if same {
          return true;
        }
      }
      x := x + 1;
    }
    found := false;
  }

  // ----- repetition of one character -----

  /** How often a one-character node matches in a row from i. */
  function RepeatCount(x: Re, s: Text, i: nat): (n: nat)
    requires i <= |s|
    ensures i + n <= |s|
    decreases |s| - i
  {
    if OneStep(x, s, i) then 1 + RepeatCount(x, s, i + 1) else 0
  }

  /** Of the continuations n, n - 1, ... min characters further on, the first that matches. */
  ghost function Greedy(k: Stack, s: Text, i: nat, n: int, min: nat): Outcome
    requires StackWf(k) && i + n <= |s|
    decreases n - min
  {
    if n < min then Miss
    else
      var r := Run(k, s, i + n);
      if r.Hit? then r else Greedy(k, s, i, n - 1, min)
  }

  /** The first run tried decides, or the shorter ones do. */
  lemma GreedyOnce(k: Stack, s: Text, i: nat, n: int, min: nat)
    requires StackWf(k) && i + n <= |s| && min <= n
    ensures var r := Run(k, s, i + n); Greedy(k, s, i, n, min) == if r.Hit? then r else Greedy(k, s, i, n - 1, min)
  {
    hide Run;
  }

  lemma GreedyNone(k: Stack, s: Text, i: nat, min: nat)
    requires StackWf(k) && i + min - 1 <= |s|
    ensures Greedy(k, s, i, min - 1, min) == Miss
  {
  }

  lemma RepeatRest(st: Stack, x: Re)
    requires st.Push? && st.top in {Do(Star(x)), Do(Plus(x))} && StackWf(st)
    ensures StackWf(st.rest) && (st.top == Do(Star(x)) ==> StackCost(st.rest) < StackCost(st))
  {
  }

  lemma {:induction false} GreedyShift(k: Stack, s: Text, i: nat, n: nat, min: nat)
    requires StackWf(k) && i + n <= |s| && n > 0
    ensures Greedy(k, s, i, n, min + 1) == Greedy(k, s, i + 1, n - 1, min)
    decreases n
  {
    if n > min + 1 {
      GreedyShift(k, s, i, n - 1, min);
    }
  }

  lemma {:induction false} GreedyLast(k: Stack, s: Text, i: nat, n: int, min: nat)
    requires StackWf(k) && i + n <= |s| && min <= n
    ensures var more := Greedy(k, s, i, n, min + 1);
            Greedy(k, s, i, n, min) == if more.Hit? then more else Run(k, s, i + min)
    decreases n
  {
    if n > min {
      GreedyLast(k, s, i, n - 1, min);
    }
  }

  /** A one-character tree steps over one character or misses. */
  lemma SimpleRun(x: Re, k: Stack, s: Text, i: nat)
    requires Simple(x) && Wf(x) && StackWf(k) && i <= |s|
    ensures Run(Push(Do(x), k), s, i) == if OneStep(x, s, i) then Run(k, s, i + 1) else Miss
  {
    if x.Lit? {
      LitStepOne(x.text, s, i);
    }
  }

  /** A simple star takes one more character if it can, and if the rest then matches. */
  lemma StarOnce(x: Re, k: Stack, s: Text, i: nat)
    requires Simple(x) && Wf(Star(x)) && StackWf(k) && i <= |s|
    ensures var loop := Push(Do(Star(x)), k);
            && StackWf(loop)
            && Run(loop, s, i) ==
               if OneStep(x, s, i) && Run(loop, s, i + 1).Hit? then Run(loop, s, i + 1) else Run(k, s, i)
  {
    var loop := Push(Do(Star(x)), k);
    SimpleRun(x, Push(Hop, loop), s, i);
    assert Run(Push(Skip, k), s, i) == Run(k, s, i);
    if OneStep(x, s, i) {
      assert Run(Push(Hop, loop), s, i + 1) == Run(loop, s, i + 1);
    }
  }

  /** The greedy loop of STAR is what x* means. */
  lemma {:induction false} StarIsGreedy(x: Re, k: Stack, s: Text, i: nat)
    requires Simple(x) && Wf(Star(x)) && StackWf(k) && i <= |s|
    ensures Run(Push(Do(Star(x)), k), s, i) == Greedy(k, s, i, RepeatCount(x, s, i), 0)
    decreases |s| - i
  {
    hide Run;
    hide Greedy;
    hide StackWf;
    StarOnce(x, k, s, i);
    var n := RepeatCount(x, s, i);
    if OneStep(x, s, i) {
      StarIsGreedy(x, k, s, i + 1);
      GreedyShift(k, s, i, n, 0);
      GreedyLast(k, s, i, n, 0);
    } else {
      GreedyOnce(k, s, i, 0, 0);
      GreedyNone(k, s, i, 0);
    }
  }

  /** The greedy loop of PLUS is what x+ means. */
  lemma {:induction false} PlusIsGreedy(x: Re, k: Stack, s: Text, i: nat)
    requires Simple(x) && Wf(Plus(x)) && StackWf(k) && i <= |s|
    ensures Run(Push(Do(Plus(x)), k), s, i) == Greedy(k, s, i, RepeatCount(x, s, i), 1)
    decreases |s| - i
  {
    var loop := Push(PlusLoop(x), k);
    SimpleRun(x, loop, s, i);
    var n := RepeatCount(x, s, i);
    if OneStep(x, s, i) {
      assert Run(Push(Skip, k), s, i + 1) == Run(k, s, i + 1);
      assert Run(Push(Hop, Push(Do(Plus(x)), k)), s, i + 1) == Run(Push(Do(Plus(x)), k), s, i + 1);
      PlusIsGreedy(x, k, s, i + 1);
      if n > 1 {
        GreedyShift(k, s, i, n, 1);
      }
      GreedyLast(k, s, i, n, 1);
    }
  }

  // ----- which opcode stands where -----

  function OpOfRe(re: Re): int {
    match re
    case Nothing => NOTHING
    case Bol => BOL
    case Eol => EOL
    case Any => ANY
    case AnyOf(_) => ANYOF
    case AnyBut(_) => ANYBUT
    case Lit(_) => EXACTLY
    case Group(n, _) => SUB_OPEN + n
    case Star(x) => if Simple(x) then STAR else BRANCH
    case Plus(x) => if Simple(x) then PLUS else OpOfRe(x)
    case Opt(_) => BRANCH
  }

  function OpOf(st: Stack): int {
    match st
    case Done => END
    case Push(it, _) =>
      match it
      case Do(re) => OpOfRe(re)
      case Choice(_) => BRANCH
      case Close(n) => SUB_CLOSE + n
      case Skip => NOTHING
      case Hop => BACK
      case PlusLoop(_) => BRANCH
  }

  lemma {:induction false} EmitOp(re: Re, link: nat)
    ensures Emit(re, link)[0] == OpOfRe(re)
  {
    if re.Plus? && !Simple(re.x) {
      EmitOp(re.x, Onward(re.x));
    }
  }

  lemma OpAt(prog: Cells, p: int, st: Stack)
    requires StackWf(st) && |prog| <= MAX_PROGRAM && At(prog, p, st)
    ensures 0 <= p && p + 2 < |prog| && prog[p] == OpOf(st)
  {
    hide Emit;
    hide EmitA;
    hide Has;
    hide LinkAt;
    hide Wf;
    AtInside(prog, p, st);
    if st.Push? {
      match st.top
      case Do(re) => EmitAt(prog, p, re, LinkAt(prog, p + TailAt(re)));
      case Choice(a) => ChoiceChain(prog, p, a, st.rest);
      case PlusLoop(x) => PlusLoopChain(prog, p, x, st.rest);
      case _ =>
    }
  }

  lemma EmitAt(prog: Cells, p: int, re: Re, link: nat)
    requires Has(prog, p, Emit(re, link))
    ensures prog[p] == OpOfRe(re)
  {
    hide Emit;
    EmitOp(re, link);
    assert Cell(prog, p, Emit(re, link), 0);
  }

  // ----- where each kind of node leads -----

  /** A tree that is a single node. */
  predicate IsLeaf(re: Re) {
    !re.Group? && !re.Star? && !re.Plus? && !re.Opt?
  }

  lemma OrdinaryNext(prog: Cells, p: int, st: Stack)
    requires StackWf(st) && |prog| <= MAX_PROGRAM && At(prog, p, st) && st.Push?
    requires (st.top.Do? && IsLeaf(st.top.re)) || st.top.Close? || st.top.Skip? || st.top.Hop?
    ensures 0 <= p && p + 2 < |prog|
    ensures RegNext(prog, p) >= 0 && At(prog, RegNext(prog, p), st.rest)
  {
    hide LinkAt;
    hide Emit;
    OpAt(prog, p, st);
    AtRest(prog, p, st);
  }

  lemma AtRest(prog: Cells, p: int, st: Stack)
    requires At(prog, p, st) && st.Push?
    requires (st.top.Do? && IsLeaf(st.top.re)) || st.top.Close? || st.top.Skip? || st.top.Hop?
    ensures 0 <= p && p + 2 < |prog| && LinkAt(prog, p) > 0
    ensures var q := if st.top.Hop? then p - LinkAt(prog, p) else p + LinkAt(prog, p);
            q >= 0 && At(prog, q, st.rest)
  {
  }

  lemma GroupNext(prog: Cells, p: int, n: nat, alts: Alts, k: Stack)
    requires 0 < n < NSUBEXP && |prog| <= MAX_PROGRAM && At(prog, p, Push(Do(Group(n, alts)), k))
    ensures 0 <= p && p + 2 < |prog|
    ensures RegNext(prog, p) == p + 3
    ensures At(prog, p + 3, Push(Choice(alts), Push(Close(n), k)))
  {
    hide LinkAt;
    hide Has;
    hide At;
    hide EmitA;
    hide GroupCode;
    hide Node;
    hide SizeA;
    var re, body := Group(n, alts), EmitA(alts, 0);
    AtDo(prog, p, re, k);
    var link := LinkAt(prog, p + TailAt(re));
    GroupParts(prog, p, n, body, link);
    HasNode(prog, p, SUB_OPEN + n, 3);
    HasNode(prog, p + 3 + |body|, SUB_CLOSE + n, link);
    AtClose(prog, p + 3 + |body|, n, k);
    AtChoice(prog, p + 3, alts, Push(Close(n), k));
  }

  lemma RepeatNext(prog: Cells, p: int, st: Stack, x: Re)
    requires st.Push? && st.top in {Do(Star(x)), Do(Plus(x))} && Simple(x)
    requires StackWf(st) && |prog| <= MAX_PROGRAM && At(prog, p, st)
    ensures 0 <= p && p + 2 < |prog|
    ensures RegNext(prog, p) >= 0 && At(prog, RegNext(prog, p), st.rest)
    ensures Has(prog, p + 3, Emit(x, 0))
  {
    hide LinkAt;
    hide Has;
    OpAt(prog, p, st);
    var op, link := OpOfRe(st.top.re), LinkAt(prog, p);
    SimpleParts(prog, p, op, x, link);
    AtInside(prog, p + link, st.rest);
  }

  lemma BranchNext(prog: Cells, p: int, st: Stack)
    requires StackWf(st) && |prog| <= MAX_PROGRAM && At(prog, p, st)
    requires OpOf(st) == BRANCH && !(st.top.Do? && st.top.re.Plus?)
    ensures Chain(prog, p, OptionsOf(st))
  {
    hide Chain;
    hide At;
    match st.top
    case Choice(a) => ChoiceChain(prog, p, a, st.rest);
    case PlusLoop(x) => PlusLoopChain(prog, p, x, st.rest);
    case Do(re) =>
      if re.Star? {
        StarChain(prog, p, re.x, st.rest);
      } else {
        OptChain(prog, p, re.x, st.rest);
      }
    case _ =>
  }

  lemma TwoOptions(a: Stack, b: Stack, c: nat, s: Text, i: nat)
    requires StackWf(a) && StackWf(b) && Below(Try(a, Try(b, NoMore)), c) && i <= |s|
    ensures FirstHit(Try(a, Try(b, NoMore)), c, s, i) == if Run(a, s, i).Hit? then Run(a, s, i) else Run(b, s, i)
  {
    assert FirstHit(Try(b, NoMore), c, s, i) == Run(b, s, i);
  }

  lemma BranchRun(st: Stack, s: Text, i: nat)
    requires StackWf(st) && i <= |s|
    requires OpOf(st) == BRANCH && !(st.top.Do? && st.top.re.Plus?)
    ensures Below(OptionsOf(st), StackCost(st))
    ensures Run(st, s, i) == FirstHit(OptionsOf(st), StackCost(st), s, i)
  {
    var k := st.rest;
    match st.top
    case Choice(a) => ChoiceOptionsRun(a, k, s, i);
    case PlusLoop(x) =>
      PushCost(Hop, Do(Plus(x)), k);
      TwoOptions(Push(Hop, Push(Do(Plus(x)), k)), Push(Skip, k), StackCost(st), s, i);
    case Do(re) =>
      PushCost(Do(re.x), Skip, k);
      TwoOptions(OptionsOf(st).st, Push(Skip, k), StackCost(st), s, i);
    case _ =>
  }

  lemma PlusRun(x: Re, k: Stack, s: Text, i: nat)
    requires Wf(Plus(x)) && StackWf(k) && i <= |s|
    ensures StackWf(Push(Do(x), Push(PlusLoop(x), k)))
    ensures StackCost(Push(Do(x), Push(PlusLoop(x), k))) < StackCost(Push(Do(Plus(x)), k))
    ensures Run(Push(Do(x), Push(PlusLoop(x), k)), s, i) == Run(Push(Do(Plus(x)), k), s, i)
  {
  }

  lemma GroupRun(n: nat, alts: Alts, k: Stack, s: Text, i: nat)
    requires Wf(Group(n, alts)) && StackWf(k) && i <= |s|
    ensures StackWf(Push(Choice(alts), Push(Close(n), k)))
    ensures Run(Push(Do(Group(n, alts)), k), s, i) ==
            MarkStart(n, i, Run(Push(Choice(alts), Push(Close(n), k)), s, i))
  {
  }

  lemma DoneRun(s: Text, i: nat)
    requires i <= |s|
    ensures Run(Done, s, i) == Hit(i, map[], map[])
  {
  }

  lemma LitRun(t: Text, k: Stack, s: Text, i: nat)
    requires |t| > 0 && StackWf(k) && i <= |s|
    ensures LitStep(t, s, i) ==> i + |t| <= |s| && Run(Push(Do(Lit(t)), k), s, i) == Run(k, s, i + |t|)
    ensures !LitStep(t, s, i) ==> Run(Push(Do(Lit(t)), k), s, i) == Miss
  {
  }

  /** Where a literal follows, a match needs its first character. */
  lemma NextChar(prog: Cells, p: int, st: Stack, s: Text, i: nat)
    requires StackWf(st) && |prog| <= MAX_PROGRAM && At(prog, p, st) && i <= |s|
    requires 0 <= p < |prog| && prog[p] == EXACTLY
    ensures p + 3 < |prog| && prog[p + 3] > 0
    ensures Run(st, s, i).Hit? ==> i < |s| && s[i] == prog[p + 3]
  {
    hide At;
    OpAt(prog, p, st);
    var re, k := st.top.re, st.rest;
    if re.Plus? {
      assert OpOfRe(re.x) == EXACTLY && re.x.Lit? && Wf(re.x);
      PlusAt(prog, p, re.x, k);
      var loop := Push(PlusLoop(re.x), k);
      LitAt(prog, p, re.x.text, loop);
      LitRun(re.x.text, loop, s, i);
      assert Run(st, s, i) == Run(Push(Do(re.x), loop), s, i);
    } else {
      LitAt(prog, p, re.text, k);
      LitRun(re.text, k, s, i);
    }
  }

  lemma LitAt(prog: Cells, p: int, t: Text, k: Stack)
    requires |t| > 0 && At(prog, p, Push(Do(Lit(t)), k))
    ensures p >= 0 && Has(prog, p + 3, t + [NUL]) && p + 3 < |prog| && prog[p + 3] == t[0]
  {
    HasString(prog, p, EXACTLY, t, LinkAt(prog, p));
    assert Cell(prog, p + 3, t + [NUL], 0);
  }

  lemma ClassAt(prog: Cells, p: int, re: Re, link: nat)
    requires re.AnyOf? || re.AnyBut?
    requires Has(prog, p, Emit(re, link))
    ensures p >= 0 && Has(prog, p + 3, re.cs + [NUL])
  {
    var op := if re.AnyOf? then ANYOF else ANYBUT;
    assert StringCode(op, re.cs, link) == Node(op, link) + (re.cs + [NUL]);
    HasSplit(prog, p, Node(op, link), re.cs + [NUL]);
  }

  // ----- the machine -----

  lemma AnyCount(s: Text, i: nat)
    requires i <= |s|
    ensures RepeatCount(Any, s, i) == |s| - i
    decreases |s| - i
  {
    if i < |s| {
      AnyCount(s, i + 1);
    }
  }

  /** The span of characters from i that the class at node matches. */
  method ClassSpan(prog: Cells, node: nat, s: Text, i: nat, ghost x: Re) returns (n: nat)
    requires (x.AnyOf? || x.AnyBut?) && Has(prog, node, Emit(x, 0)) && i <= |s|
    ensures n == RepeatCount(x, s, i)
  {
    EmitAt(prog, node, x, 0);
    ClassAt(prog, node, x, 0);
    n := 0;
    while i + n < |s|
      invariant i + n <= |s|
      invariant RepeatCount(x, s, i) == n + RepeatCount(x, s, i + n)
    {
      var found := StrChr(prog, node + 3, s[i + n], x.cs);
      if found != (prog[node] == ANYOF) {
        return;
      }
      n := n + 1;
    }
  }

  /** How many times something simple would match. */
  method RegRepeat(prog: Cells, node: nat, s: Text, i: nat, ghost x: Re) returns (n: nat)
    requires Simple(x) && Has(prog, node, Emit(x, 0)) && i <= |s|
    ensures n == RepeatCount(x, s, i)
  {
    EmitAt(prog, node, x, 0);
    if prog[node] == ANY {
      AnyCount(s, i);
      n := |s| - i;
    } else if prog[node] == EXACTLY {
      HasString(prog, node, EXACTLY, x.text, 0);
      assert Cell(prog, node + 3, x.text + [NUL], 0);
      var ch := prog[node + 3];
      n := 0;
      while i + n < |s| && s[i + n] == ch
        invariant i + n <= |s|
        invariant RepeatCount(x, s, i) == n + RepeatCount(x, s, i + n)
      {
        n := n + 1;
      }
    } else {
      n := ClassSpan(prog, node, s, i, x);
    }
  }

  /** The recorded positions are exactly those of the map. */
  predicate Marks(a: seq<int>, m: map<nat, nat>) {
    |a| == NSUBEXP && forall n: nat :: n < |a| ==> a[n] == if n in m then m[n] else NULL
  }

  predicate Blank(a: seq<int>) {
    Marks(a, map[])
  }

  /** The state of one attempt: struct exec and the subject it works on. */
  class Exec {
    const prog: Cells
    const s: Text
    var reginput: nat
    const startp: array<int>
    const endp: array<int>

    ghost predicate Ready()
      reads this, startp, endp
    {
      && |prog| <= MAX_PROGRAM && reginput <= |s|
      && startp != endp && Blank(startp[..]) && Blank(endp[..])
    }

    /** The state says what the outcome says. */
    ghost predicate Agrees(ok: bool, r: Outcome)
      reads this, startp, endp
    {
      && ok == r.Hit?
      && (ok ==> reginput == r.end && Marks(startp[..], r.starts) && Marks(endp[..], r.ends))
      && (!ok ==> Ready())
    }

    constructor (prog: Cells, s: Text, startp: array<int>, endp: array<int>)
      requires |prog| <= MAX_PROGRAM && startp != endp && startp.Length == endp.Length == NSUBEXP
      ensures this.prog == prog && this.s == s && this.startp == startp && this.endp == endp && reginput == 0
    {
      this.prog, this.s, this.startp, this.endp := prog, s, startp, endp;
      reginput := 0;
    }

    /** The nodes that look at the subject on the spot. */
    method StepOver(scan: nat, ghost st: Stack) returns (ok: bool)
      requires Ready() && StackWf(st) && At(prog, scan, st) && st.Push?
      requires (st.top.Do? && IsLeaf(st.top.re)) || st.top.Skip? || st.top.Hop?
      modifies this`reginput
      ensures old(reginput) <= reginput <= |s|
      ensures ok ==> Run(st, s, old(reginput)) == Run(st.rest, s, reginput)
      ensures ok && old(reginput) == reginput ==> StackCost(st.rest) < StackCost(st)
      ensures !ok ==> Run(st, s, old(reginput)) == Miss
    {
      OpAt(prog, scan, st);
      var op := prog[scan];
      if op == BOL {
        ok := reginput == 0;
      } else if op == EOL {
        ok := reginput == |s|;
      } else if op == EXACTLY {
        ok := StepLiteral(scan, st.top.re.text, st.rest);
      } else if op == ANY || op == ANYOF || op == ANYBUT {
        ok := StepOne(scan, st.top.re, st.rest);
      } else {
        ok := true;
      }
    }

    method StepLiteral(scan: nat, ghost t: Text, ghost k: Stack) returns (ok: bool)
      requires Ready() && |t| > 0 && StackWf(k) && At(prog, scan, Push(Do(Lit(t)), k))
      modifies this`reginput
      ensures old(reginput) <= reginput <= |s|
      ensures ok ==> old(reginput) < reginput && Run(Push(Do(Lit(t)), k), s, old(reginput)) == Run(k, s, reginput)
      ensures !ok ==> Run(Push(Do(Lit(t)), k), s, old(reginput)) == Miss
    {
      LitAt(prog, scan, t, k);
      LitRun(t, k, s, reginput);
      var opnd := scan + 3;
      if prog[opnd] != Peek(s, reginput) {
        return false;
      }
      var found := StrStr(s, reginput, prog, opnd, t);
      if !found {
        return false;
      }
      var len := StrLen(prog, opnd, t);
      reginput := reginput + len;
      ok := true;
    }

    method StepOne(scan: nat, ghost re: Re, ghost k: Stack) returns (ok: bool)
      requires re.Any? || re.AnyOf? || re.AnyBut?
      requires Ready() && StackWf(k) && At(prog, scan, Push(Do(re), k))
      modifies this`reginput
      ensures old(reginput) <= reginput <= |s|
      ensures ok ==> old(reginput) < reginput && Run(Push(Do(re), k), s, old(reginput)) == Run(k, s, reginput)
      ensures !ok ==> Run(Push(Do(re), k), s, old(reginput)) == Miss
    {
      SimpleRun(re, k, s, reginput);
      EmitAt(prog, scan, re, LinkAt(prog, scan));
      if reginput == |s| {
        return false;
      }
      if prog[scan] != ANY {
        ClassAt(prog, scan, re, LinkAt(prog, scan));
        var found := StrChr(prog, scan + 3, s[reginput], re.cs);
        if found != (prog[scan] == ANYOF) {
          return false;
        }
      }
      reginput := reginput + 1;
      ok := true;
    }

    method MatchOpen(scan: nat, no: nat, ghost st: Stack) returns (ok: bool)
      requires Ready() && StackWf(st) && At(prog, scan, st)
      requires 0 < no < NSUBEXP && OpOf(st) == SUB_OPEN + no && st.top.re.Group?
      modifies this`reginput, startp, endp
      ensures Agrees(ok, Run(st, s, old(reginput)))
      decreases |s| - reginput, StackCost(st), 0
    {
      hide At;
      hide Run;
      hide LinkAt;
      ghost var inner := Push(Choice(st.top.re.alts), Push(Close(no), st.rest));
      GroupNext(prog, scan, no, st.top.re.alts, st.rest);
      PushCost(Choice(st.top.re.alts), Close(no), st.rest);
      GroupRun(no, st.top.re.alts, st.rest, s, reginput);
      var input := reginput;
      ok := RegMatch(RegNext(prog, scan), inner);
      if ok && startp[no] == NULL {
        startp[no] := input;
      }
    }

    method MatchClose(scan: nat, no: nat, ghost st: Stack) returns (ok: bool)
      requires Ready() && StackWf(st) && At(prog, scan, st)
      requires 0 < no < NSUBEXP && st.Push? && st.top == Close(no)
      modifies this`reginput, startp, endp
      ensures Agrees(ok, Run(st, s, old(reginput)))
      decreases |s| - reginput, StackCost(st), 0
    {
      OrdinaryNext(prog, scan, st);
      var input := reginput;
      ok := RegMatch(RegNext(prog, scan), st.rest);
      if ok && endp[no] == NULL {
        endp[no] := input;
      }
    }

    /** Try the options of a chain of BRANCH nodes, restoring the input in between. */
    method MatchBranches(first: nat, ghost os0: Options, ghost c: nat) returns (ok: bool)
      requires Ready() && Below(os0, c) && Chain(prog, first, os0)
      modifies this`reginput, startp, endp
      ensures Agrees(ok, FirstHit(os0, c, s, old(reginput)))
      decreases |s| - reginput, c, 0
    {
      var save := reginput;
      var scan := first;
      ghost var os := os0;
      while prog[scan] == BRANCH
        invariant Ready() && reginput == save
        invariant Below(os, c) && Chain(prog, scan, os)
        invariant FirstHit(os, c, s, save) == FirstHit(os0, c, s, save)
        decreases os
      {
        ok := RegMatch(scan + 3, os.st);
        if ok {
          return true;
        }
        reginput := save;
        scan := RegNext(prog, scan);
        os := os.more;
      }
      ok := false;
    }

    /** STAR and PLUS: the longest repetition first, then shorter ones. */
    method MatchRepeat(scan: nat, ghost st: Stack, ghost x: Re) returns (ok: bool)
      requires st.Push? && st.top in {Do(Star(x)), Do(Plus(x))} && Simple(x)
      requires Ready() && StackWf(st) && At(prog, scan, st)
      modifies this`reginput, startp, endp
      ensures Agrees(ok, Run(st, s, old(reginput)))
      decreases |s| - reginput, StackCost(st), 0
    {
      hide StackWf;
      hide StackCost;
      hide Greedy;
      hide Marks;
      hide Blank;
      hide At;
      hide Run;
      hide LinkAt;
      hide Has;
      RepeatRest(st, x);
      OpAt(prog, scan, st);
      RepeatNext(prog, scan, st, x);
      ghost var k := st.rest;
      var next := RegNext(prog, scan);
      OpAt(prog, next, k);
      var nextch := NUL;
      if prog[next] == EXACTLY {
        NextChar(prog, next, k, s, reginput);
        nextch := prog[next + 3];
      }
      var save := reginput;
      var min := if prog[scan] == STAR then 0 else 1;
      var count := RegRepeat(prog, scan + 3, s, save, x);
      if prog[scan] == STAR {
        StarIsGreedy(x, k, s, save);
      } else {
        PlusIsGreedy(x, k, s, save);
      }
      GreedyNone(k, s, save, min);
      var no: int := count + 1;
      while no > min
        invariant min <= no <= count + 1
        invariant Ready()
        invariant Greedy(k, s, save, no - 1, min) == Run(st, s, save)
        decreases no
      {
        reginput := save + no - 1;
        GreedyOnce(k, s, save, no - 1, min);
        if prog[next] == EXACTLY {
          NextChar(prog, next, k, s, reginput);
        }
        if nextch == NUL || Peek(s, reginput) == nextch {
          ok := RegMatch(next, k);
          if ok {
            return;
          }
        }
        no := no - 1;
      }
      ok := false;
    }

    /** Match everything on the stack st0, whose code is at start, from reginput. */
    method RegMatch(start: nat, ghost st0: Stack) returns (ok: bool)
      requires Ready() && StackWf(st0) && At(prog, start, st0)
      modifies this`reginput, startp, endp
      ensures Agrees(ok, Run(st0, s, old(reginput)))
      decreases |s| - reginput, StackCost(st0), 1
    {
      hide At;
      hide Run;
      hide LinkAt;
      hide OptionsOf;
      hide StackCost;
      ghost var i0 := reginput;
      var scan: int := start;
      ghost var st := st0;
      while scan != NULL
        invariant 0 <= scan && Ready() && StackWf(st) && At(prog, scan, st)
        invariant i0 <= reginput && (i0 == reginput ==> StackCost(st) <= StackCost(st0))
        invariant Run(st, s, reginput) == Run(st0, s, i0)
        decreases |s| - reginput, StackCost(st)
      {
        if st.Push? && st.top.Do? && st.top.re.Plus? && !Simple(st.top.re.x) {
          PlusAt(prog, scan, st.top.re.x, st.rest);
          PlusRun(st.top.re.x, st.rest, s, reginput);
          st := Push(Do(st.top.re.x), Push(PlusLoop(st.top.re.x), st.rest));
        }
        OpAt(prog, scan, st);
        var next := RegNext(prog, scan);
        var op := prog[scan];
        if op == BOL || op == EOL || op == ANY || op == EXACTLY || op == ANYOF || op == ANYBUT ||
           op == NOTHING || op == BACK
        {
          OrdinaryNext(prog, scan, st);
          ok := StepOver(scan, st);
          if !ok {
            return;
          }
          st := st.rest;
          scan := next;
        } else if SUB_OPEN < op < SUB_OPEN + NSUBEXP {
          ok := MatchOpen(scan, op - SUB_OPEN, st);
          return;
        } else if SUB_CLOSE < op < SUB_CLOSE + NSUBEXP {
          ok := MatchClose(scan, op - SUB_CLOSE, st);
          return;
        } else if op == BRANCH {
          BranchNext(prog, scan, st);
          BranchRun(st, s, reginput);
          if prog[next] != BRANCH {
            st := OptionsOf(st).st;
            scan := scan + 3;
          } else {
            ok := MatchBranches(scan, OptionsOf(st), StackCost(st));
            return;
          }
        } else if op == STAR || op == PLUS {
          ok := MatchRepeat(scan, st, st.top.re.x);
          return;
        } else {
          DoneRun(s, reginput);
          return true;
        }
      }
      assert false;
    }

    /** Try a match at a specific point. */
    method RegTry(from: nat, ghost alts: Alts) returns (ok: bool)
      requires alts.ACons? && WfA(alts) && At(prog, 1, Push(Choice(alts), Done)) && |prog| <= MAX_PROGRAM
      requires from <= |s| && startp != endp && startp.Length == endp.Length == NSUBEXP
      modifies this`reginput, startp, endp
      ensures ok <==> Find(alts, s, from).Hit?
      ensures ok ==> var r := Find(alts, s, from);
                     Marks(startp[..], r.starts[0 := from]) && Marks(endp[..], r.ends[0 := r.end])
    {
      hide At;
      hide Run;
      hide WfA;
      reginput := from;
      for i := 0 to NSUBEXP
        invariant forall n :: 0 <= n < i ==> startp[n] == NULL && endp[n] == NULL
        invariant reginput == from
      {
        startp[i], endp[i] := NULL, NULL;
      }
      ok := RegMatch(1, Push(Choice(alts), Done));
      if ok {
        startp[0] := from;
        endp[0] := reginput;
      }
    }
  }
}
