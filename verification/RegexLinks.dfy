/**
 Well-linked programs. At(prog, p, st) says that the cells at p, followed along
 their links, are the compiled form of everything on the stack st. The lemmas
 here are the local facts about each kind of node: whatever opcode stands at p,
 the nodes its links and operand lead to are again At the stacks that one step
 of the ordered meaning goes to.
 */
module RegexLinks {
  import opened RegexSyntax
  import opened RegexCode
  import opened RegexMeaning

  /** Cell k of the code stands k cells behind p. */
  predicate Cell(prog: Cells, p: int, code: Cells, k: int)
    requires 0 <= p && p + |code| <= |prog| && 0 <= k < |code|
  {
    prog[p + k] == code[k]
  }

  /** The code stands in the program at p. */
  ghost predicate Has(prog: Cells, p: int, code: Cells) {
    0 <= p && p + |code| <= |prog| && forall k :: 0 <= k < |code| ==> Cell(prog, p, code, k)
  }

  lemma HasBounds(prog: Cells, p: int, code: Cells)
    requires Has(prog, p, code)
    ensures 0 <= p && p + |code| <= |prog|
  {
  }

  lemma HasSplit(prog: Cells, p: int, c1: Cells, c2: Cells)
    ensures Has(prog, p, c1 + c2) <==> Has(prog, p, c1) && Has(prog, p + |c1|, c2)
  {
    var c, d := c1 + c2, p + |c1|;
    if Has(prog, p, c) {
      forall k | 0 <= k < |c1| ensures Cell(prog, p, c1, k) {
        assert Cell(prog, p, c, k);
      }
      forall k | 0 <= k < |c2| ensures Cell(prog, d, c2, k) {
        assert Cell(prog, p, c, |c1| + k);
      }
    }
    if Has(prog, p, c1) && Has(prog, d, c2) {
      forall k | 0 <= k < |c| ensures Cell(prog, p, c, k) {
        assert if k < |c1| then Cell(prog, p, c1, k) else Cell(prog, d, c2, k - |c1|);
      }
    }
  }

  lemma HasSplit3(prog: Cells, p: int, c1: Cells, c2: Cells, c3: Cells)
    requires Has(prog, p, c1 + c2 + c3)
    ensures Has(prog, p, c1) && Has(prog, p + |c1|, c2) && Has(prog, p + |c1| + |c2|, c3)
  {
    HasSplit(prog, p, c1 + c2, c3);
    HasSplit(prog, p, c1, c2);
  }

  /** The layout of a program. */
  lemma ProgramParts(alts: Alts)
    ensures var prog := Program(alts);
            && prog[0] == MAGIC && Has(prog, 1, EmitA(alts, 0)) && Has(prog, 1 + SizeA(alts), Node(END, 0))
  {
    hide EmitA;
    hide Node;
    var prog := Program(alts);
    forall k | 0 <= k < |prog| ensures Cell(prog, 0, prog, k) {
    }
    HasSplit3(prog, 0, [MAGIC], EmitA(alts, 0), Node(END, 0));
  }

  lemma HasSplit5(prog: Cells, p: int, c1: Cells, c2: Cells, c3: Cells, c4: Cells, c5: Cells)
    requires Has(prog, p, c1 + c2 + c3 + c4 + c5)
    ensures Has(prog, p, c1) && Has(prog, p + |c1|, c2) && Has(prog, p + |c1| + |c2|, c3)
    ensures Has(prog, p + |c1| + |c2| + |c3|, c4)
    ensures Has(prog, p + |c1| + |c2| + |c3| + |c4|, c5)
  {
    HasSplit(prog, p, c1 + c2 + c3 + c4, c5);
    HasSplit(prog, p, c1 + c2 + c3, c4);
    HasSplit3(prog, p, c1, c2, c3);
  }

  lemma HasNode(prog: Cells, p: int, op: int, link: nat)
    requires Has(prog, p, Node(op, link)) && link <= MAX_PROGRAM
    ensures 0 <= p && p + 2 < |prog| && prog[p] == op && LinkAt(prog, p) == link
  {
    var n := Node(op, link);
    assert Cell(prog, p, n, 0) && Cell(prog, p, n, 1) && Cell(prog, p, n, 2);
    assert prog[p..p + 3] == n;
    LinkRoundTrip(prog, p, op, link);
  }

  /** A node with an operand string. */
  lemma HasString(prog: Cells, p: int, op: int, t: Text, link: nat)
    requires Has(prog, p, StringCode(op, t, link)) && link <= MAX_PROGRAM
    ensures 0 <= p && p + 2 < |prog| && prog[p] == op && LinkAt(prog, p) == link
    ensures Has(prog, p + 3, t + [NUL])
  {
    assert StringCode(op, t, link) == Node(op, link) + (t + [NUL]);
    HasSplit(prog, p, Node(op, link), t + [NUL]);
    HasNode(prog, p, op, link);
  }

  // ----- the parts of each fragment -----

  lemma GroupParts(prog: Cells, p: int, n: nat, body: Cells, link: nat)
    requires Has(prog, p, GroupCode(n, body, link))
    ensures Has(prog, p, Node(SUB_OPEN + n, 3))
    ensures Has(prog, p + 3, body)
    ensures Has(prog, p + 3 + |body|, Node(SUB_CLOSE + n, link))
  {
    HasSplit3(prog, p, Node(SUB_OPEN + n, 3), body, Node(SUB_CLOSE + n, link));
  }

  lemma StarParts(prog: Cells, p: int, body: Cells, link: nat)
    requires Has(prog, p, StarCode(body, link))
    ensures Has(prog, p, Node(BRANCH, |body| + 6))
    ensures Has(prog, p + 3, body)
    ensures Has(prog, p + 3 + |body|, Node(BACK, |body| + 3))
    ensures Has(prog, p + 6 + |body|, Node(BRANCH, 3))
    ensures Has(prog, p + 9 + |body|, Node(NOTHING, link))
  {
    HasSplit5(prog, p, Node(BRANCH, |body| + 6), body, Node(BACK, |body| + 3), Node(BRANCH, 3), Node(NOTHING, link));
  }

  lemma PlusParts(prog: Cells, p: int, body: Cells, link: nat)
    requires Has(prog, p, PlusCode(body, link))
    ensures Has(prog, p, body)
    ensures Has(prog, p + |body|, Node(BRANCH, 6))
    ensures Has(prog, p + 3 + |body|, Node(BACK, |body| + 3))
    ensures Has(prog, p + 6 + |body|, Node(BRANCH, 3))
    ensures Has(prog, p + 9 + |body|, Node(NOTHING, link))
  {
    HasSplit5(prog, p, body, Node(BRANCH, 6), Node(BACK, |body| + 3), Node(BRANCH, 3), Node(NOTHING, link));
  }

  lemma OptParts(prog: Cells, p: int, body: Cells, link: nat)
    requires Has(prog, p, OptCode(body, link))
    ensures Has(prog, p, Node(BRANCH, |body| + 3))
    ensures Has(prog, p + 3, body)
    ensures Has(prog, p + 3 + |body|, Node(BRANCH, 3))
    ensures Has(prog, p + 6 + |body|, Node(NOTHING, link))
  {
    var c1, c3 := Node(BRANCH, |body| + 3), Node(BRANCH, 3);
    HasSplit(prog, p, c1 + body + c3, Node(NOTHING, link));
    HasSplit3(prog, p, c1, body, c3);
  }

  lemma ChoiceParts(prog: Cells, p: int, a: Alts, d: int)
    requires a.ACons? && a.first.Cons? && Has(prog, p, EmitA(a, d))
    ensures Has(prog, p, Node(BRANCH, 3 + SizeB(a.first)))
    ensures Has(prog, p + 3, EmitB(a.first, TailLinkOf(a.first, SizeA(a.rest), d)))
    ensures Has(prog, p + 3 + SizeB(a.first), EmitA(a.rest, d))
  {
    HasSplit3(prog, p, Node(BRANCH, 3 + SizeB(a.first)),
              EmitB(a.first, TailLinkOf(a.first, SizeA(a.rest), d)), EmitA(a.rest, d));
  }

  lemma SimpleParts(prog: Cells, p: int, op: int, x: Re, link: nat)
    requires Has(prog, p, Node(op, link) + Emit(x, 0))
    ensures Has(prog, p, Node(op, link)) && Has(prog, p + 3, Emit(x, 0))
  {
    HasSplit(prog, p, Node(op, link), Emit(x, 0));
  }

  /** The link a fragment was emitted with is the one its tail node holds. */
  lemma TailLink(prog: Cells, p: int, re: Re, link: nat)
    requires Has(prog, p, Emit(re, link)) && link <= MAX_PROGRAM
    ensures LinkAt(prog, p + TailAt(re)) == link
  {
    hide Has;
    hide LinkAt;
    match re
    case Nothing => HasNode(prog, p, NOTHING, link);
    case Bol => HasNode(prog, p, BOL, link);
    case Eol => HasNode(prog, p, EOL, link);
    case Any => HasNode(prog, p, ANY, link);
    case AnyOf(cs) => HasString(prog, p, ANYOF, cs, link);
    case AnyBut(cs) => HasString(prog, p, ANYBUT, cs, link);
    case Lit(t) => HasString(prog, p, EXACTLY, t, link);
    case _ => TailLinkCompound(prog, p, re, link);
  }

  lemma TailLinkCompound(prog: Cells, p: int, re: Re, link: nat)
    requires re.Group? || re.Star? || re.Plus? || re.Opt?
    requires Has(prog, p, Emit(re, link)) && link <= MAX_PROGRAM
    ensures LinkAt(prog, p + TailAt(re)) == link
  {
    hide Has;
    hide LinkAt;
    if (re.Star? || re.Plus?) && Simple(re.x) {
      var op := if re.Star? then STAR else PLUS;
      SimpleParts(prog, p, op, re.x, link);
      HasNode(prog, p, op, link);
    } else {
      var q := p + TailAt(re);
      match re
      case Group(n, alts) =>
        GroupParts(prog, p, n, EmitA(alts, 0), link);
        HasNode(prog, q, SUB_CLOSE + n, link);
      case Star(x) =>
        StarParts(prog, p, Emit(x, Onward(x)), link);
        HasNode(prog, q, NOTHING, link);
      case Plus(x) =>
        PlusParts(prog, p, Emit(x, Onward(x)), link);
        HasNode(prog, q, NOTHING, link);
      case Opt(x) =>
        OptParts(prog, p, Emit(x, Onward(x) + 3), link);
        HasNode(prog, q, NOTHING, link);
    }
  }

  // ----- well-linked programs -----

  /** A node with this opcode and a link that is set. */
  predicate IsNode(prog: Cells, p: int, op: int) {
    0 <= p && p + 2 < |prog| && prog[p] == op && LinkAt(prog, p) > 0
  }

  /** Where a fragment continues. */
  function Exit(prog: Cells, p: int, re: Re): int
    requires 0 <= p && p + Size(re) <= |prog|
  {
    p + TailAt(re) + LinkAt(prog, p + TailAt(re))
  }

  /** A linked fragment for the tree stands at p. */
  ghost predicate Linked(prog: Cells, p: int, re: Re) {
    && 0 <= p && p + Size(re) <= |prog|
    && LinkAt(prog, p + TailAt(re)) > 0
    && Has(prog, p, Emit(re, LinkAt(prog, p + TailAt(re))))
  }

  ghost predicate At(prog: Cells, p: int, st: Stack)
    decreases st
  {
    match st
    case Done => 0 <= p && p + 2 < |prog| && prog[p] == END
    case Push(it, k) =>
      match it
      case Do(re) => Linked(prog, p, re) && At(prog, Exit(prog, p, re), k)
      case Choice(a) =>
        && Has(prog, p, EmitA(a, 0))
        && p + SizeA(a) + 2 < |prog| && prog[p + SizeA(a)] != BRANCH
        && At(prog, p + SizeA(a), k)
      case Close(n) => IsNode(prog, p, SUB_CLOSE + n) && At(prog, p + LinkAt(prog, p), k)
      case Skip => IsNode(prog, p, NOTHING) && At(prog, p + LinkAt(prog, p), k)
      case Hop => IsNode(prog, p, BACK) && At(prog, p - LinkAt(prog, p), k)
      case PlusLoop(x) =>
        && !Simple(x)
        && Linked(prog, p - Size(x), Plus(x))
        && At(prog, Exit(prog, p - Size(x), Plus(x)), k)
  }

  // One level of At, for proofs that hide its definition.

  lemma AtDo(prog: Cells, p: int, re: Re, k: Stack)
    ensures At(prog, p, Push(Do(re), k)) <==> Linked(prog, p, re) && At(prog, Exit(prog, p, re), k)
  {
  }

  lemma AtHop(prog: Cells, p: int, k: Stack)
    ensures At(prog, p, Push(Hop, k)) <==> IsNode(prog, p, BACK) && At(prog, p - LinkAt(prog, p), k)
  {
  }

  lemma AtSkip(prog: Cells, p: int, k: Stack)
    ensures At(prog, p, Push(Skip, k)) <==> IsNode(prog, p, NOTHING) && At(prog, p + LinkAt(prog, p), k)
  {
  }

  lemma AtClose(prog: Cells, p: int, n: nat, k: Stack)
    ensures At(prog, p, Push(Close(n), k)) <==> IsNode(prog, p, SUB_CLOSE + n) && At(prog, p + LinkAt(prog, p), k)
  {
  }

  lemma AtPlusLoop(prog: Cells, p: int, x: Re, k: Stack)
    ensures At(prog, p, Push(PlusLoop(x), k)) <==> !Simple(x) && At(prog, p - Size(x), Push(Do(Plus(x)), k))
  {
  }

  lemma AtChoice(prog: Cells, p: int, a: Alts, k: Stack)
    ensures At(prog, p, Push(Choice(a), k)) <==>
            && Has(prog, p, EmitA(a, 0))
            && p + SizeA(a) + 2 < |prog| && prog[p + SizeA(a)] != BRANCH
            && At(prog, p + SizeA(a), k)
  {
    hide Has;
    hide EmitA;
    hide SizeA;
    hide Linked;
    hide Exit;
    hide LinkAt;
  }

  lemma AtDone(prog: Cells, p: int)
    ensures At(prog, p, Done) <==> 0 <= p && p + 2 < |prog| && prog[p] == END
  {
  }

  /** A node start is never the last or last but one cell. */
  lemma AtInside(prog: Cells, p: int, st: Stack)
    requires At(prog, p, st)
    ensures 0 <= p && p + 2 < |prog|
  {
  }

  lemma AtFragment(prog: Cells, p: int, re: Re, link: nat, k: Stack)
    requires Has(prog, p, Emit(re, link)) && 0 < link <= MAX_PROGRAM
    requires At(prog, p + TailAt(re) + link, k)
    ensures At(prog, p, Push(Do(re), k))
  {
    TailLink(prog, p, re, link);
  }

  lemma {:induction false} AtBranch(prog: Cells, p: int, b: Branch, link: nat, k: Stack)
    requires b.Cons? && |prog| <= MAX_PROGRAM
    requires Has(prog, p, EmitB(b, link)) && 0 < link <= MAX_PROGRAM
    requires At(prog, p + TailAtB(b) + link, k)
    ensures At(prog, p, Prepend(b, k))
    decreases b
  {
    hide Emit;
    if b.tail.Nil? {
      AtFragment(prog, p, b.head, link, k);
    } else {
      HasSplit(prog, p, Emit(b.head, Onward(b.head)), EmitB(b.tail, link));
      AtBranch(prog, p + Size(b.head), b.tail, link, k);
      AtFragment(prog, p, b.head, Onward(b.head), Prepend(b.tail, k));
    }
  }

  // ----- choices -----

  /** The stacks that the alternatives of a choice node go to, in order. */
  datatype Options = NoMore | Try(st: Stack, more: Options)

  /** A chain of BRANCH nodes, each with an option as its operand. */
  ghost predicate Chain(prog: Cells, p: int, os: Options)
    decreases os
  {
    && 0 <= p && p + 2 < |prog|
    && match os
       case NoMore => prog[p] != BRANCH
       case Try(st, more) =>
         IsNode(prog, p, BRANCH) && At(prog, p + 3, st) && Chain(prog, p + LinkAt(prog, p), more)
  }

  /** All options are well formed and cheaper than c. */
  predicate Below(os: Options, c: nat) {
    match os
    case NoMore => true
    case Try(st, more) => StackWf(st) && StackCost(st) < c && Below(more, c)
  }

  lemma BelowWider(os: Options, c: nat, d: nat)
    requires Below(os, c) && c <= d
    ensures Below(os, d)
  {
  }

  ghost function FirstHit(os: Options, c: nat, s: Text, i: nat): Outcome
    requires Below(os, c) && i <= |s|
  {
    match os
    case NoMore => Miss
    case Try(st, more) =>
      var r := Run(st, s, i);
      if r.Hit? then r else FirstHit(more, c, s, i)
  }

  function ChoiceOptions(a: Alts, k: Stack): Options {
    match a
    case ANil => NoMore
    case ACons(b, t) => Try(Prepend(b, k), ChoiceOptions(t, k))
  }

  function OptionsOf(st: Stack): Options {
    match st
    case Push(Choice(a), k) => ChoiceOptions(a, k)
    case Push(Do(Star(x)), k) =>
      Try(Push(Do(x), Push(Hop, st)), Try(Push(Skip, k), NoMore))
    case Push(Do(Opt(x)), k) =>
      Try(Push(Do(x), Push(Skip, k)), Try(Push(Skip, k), NoMore))
    case Push(PlusLoop(x), k) =>
      Try(Push(Hop, Push(Do(Plus(x)), k)), Try(Push(Skip, k), NoMore))
    case _ => NoMore
  }

  lemma {:induction false} ChoiceOptionsRun(a: Alts, k: Stack, s: Text, i: nat)
    requires a.ACons? && WfA(a) && StackWf(k) && i <= |s|
    ensures Below(ChoiceOptions(a, k), StackCost(Push(Choice(a), k)))
    ensures Run(Push(Choice(a), k), s, i) == FirstHit(ChoiceOptions(a, k), StackCost(Push(Choice(a), k)), s, i)
    decreases a
  {
    PrependWf(a.first, k);
    PrependCost(a.first, k);
    if a.rest.ACons? {
      ChoiceOptionsRun(a.rest, k, s, i);
      var os, c, d := ChoiceOptions(a.rest, k), StackCost(Push(Choice(a.rest), k)), StackCost(Push(Choice(a), k));
      BelowWider(os, c, d);
      FirstHitWider(os, c, d, s, i);
    }
  }

  lemma FirstHitWider(os: Options, c: nat, d: nat, s: Text, i: nat)
    requires Below(os, c) && Below(os, d) && i <= |s|
    ensures FirstHit(os, c, s, i) == FirstHit(os, d, s, i)
  {
  }

  lemma {:induction false} ChoiceChain(prog: Cells, p: int, a: Alts, k: Stack)
    requires WfA(a) && |prog| <= MAX_PROGRAM && At(prog, p, Push(Choice(a), k))
    ensures Chain(prog, p, ChoiceOptions(a, k))
    decreases a
  {
    hide SizeB;
    hide Wf;
    hide Emit;
    hide EmitA;
    hide EmitB;
    hide Has;
    hide LinkAt;
    hide At;
    hide Prepend;
    hide WfB;
    AtChoice(prog, p, a, k);
    HasBounds(prog, p, EmitA(a, 0));
    if a.ACons? {
      var b, next := a.first, p + 3 + SizeB(a.first);
      ChoiceParts(prog, p, a, 0);
      HasNode(prog, p, BRANCH, 3 + SizeB(b));
      AtBranch(prog, p + 3, b, OnwardB(b) + SizeA(a.rest), k);
      AtChoice(prog, next, a.rest, k);
      ChoiceChain(prog, next, a.rest, k);
    }
  }

  lemma StarChain(prog: Cells, p: int, x: Re, k: Stack)
    requires |prog| <= MAX_PROGRAM && !Simple(x) && At(prog, p, Push(Do(Star(x)), k))
    ensures Chain(prog, p, OptionsOf(Push(Do(Star(x)), k)))
  {
    hide Wf;
    hide SizeA;
    hide SizeB;
    hide Emit;
    hide Has;
    hide LinkAt;
    hide At;
    AtDo(prog, p, Star(x), k);
    var link := LinkAt(prog, p + TailAt(Star(x)));
    var body := Emit(x, Onward(x));
    StarEmit(x, link);
    StarParts(prog, p, body, link);
    HasNode(prog, p, BRANCH, |body| + 6);
    HasNode(prog, p + 3 + |body|, BACK, |body| + 3);
    HasNode(prog, p + 6 + |body|, BRANCH, 3);
    HasNode(prog, p + 9 + |body|, NOTHING, link);
    AtHop(prog, p + 3 + |body|, Push(Do(Star(x)), k));
    AtSkip(prog, p + 9 + |body|, k);
    AtFragment(prog, p + 3, x, Onward(x), Push(Hop, Push(Do(Star(x)), k)));
    LoopEnd(prog, p + 6 + |body|, k);
  }

  lemma StarEmit(x: Re, link: nat)
    requires !Simple(x)
    ensures Emit(Star(x), link) == StarCode(Emit(x, Onward(x)), link)
    ensures Emit(Plus(x), link) == PlusCode(Emit(x, Onward(x)), link)
  {
  }

  lemma OptEmit(x: Re, link: nat)
    ensures Emit(Opt(x), link) == OptCode(Emit(x, Onward(x) + 3), link)
  {
  }

  /** The second choice of every loop: nothing, and on. */
  lemma LoopEnd(prog: Cells, p: int, k: Stack)
    requires IsNode(prog, p, BRANCH) && LinkAt(prog, p) == 3
    requires At(prog, p + 3, Push(Skip, k))
    ensures Chain(prog, p, Try(Push(Skip, k), NoMore))
  {
    AtInside(prog, p + 3, Push(Skip, k));
  }

  lemma PlusLoopChain(prog: Cells, p: int, x: Re, k: Stack)
    requires |prog| <= MAX_PROGRAM && At(prog, p, Push(PlusLoop(x), k))
    ensures Chain(prog, p, OptionsOf(Push(PlusLoop(x), k)))
  {
    hide Emit;
    hide Has;
    hide LinkAt;
    hide At;
    var q := p - Size(x);
    AtPlusLoop(prog, p, x, k);
    AtDo(prog, q, Plus(x), k);
    var link := LinkAt(prog, q + TailAt(Plus(x)));
    var body := Emit(x, Onward(x));
    StarEmit(x, link);
    PlusParts(prog, q, body, link);
    HasNode(prog, p, BRANCH, 6);
    HasNode(prog, p + 3, BACK, |body| + 3);
    HasNode(prog, p + 6, BRANCH, 3);
    HasNode(prog, p + 9, NOTHING, link);
    AtHop(prog, p + 3, Push(Do(Plus(x)), k));
    AtSkip(prog, p + 9, k);
    LoopEnd(prog, p + 6, k);
  }

  /** A complex x+ begins with x itself. */
  lemma PlusAt(prog: Cells, p: int, x: Re, k: Stack)
    requires |prog| <= MAX_PROGRAM && !Simple(x) && At(prog, p, Push(Do(Plus(x)), k))
    ensures At(prog, p, Push(Do(x), Push(PlusLoop(x), k)))
  {
    hide Emit;
    hide Has;
    hide LinkAt;
    var link := LinkAt(prog, p + TailAt(Plus(x)));
    StarEmit(x, link);
    PlusParts(prog, p, Emit(x, Onward(x)), link);
    AtFragment(prog, p, x, Onward(x), Push(PlusLoop(x), k));
  }

  lemma OptChain(prog: Cells, p: int, x: Re, k: Stack)
    requires |prog| <= MAX_PROGRAM && At(prog, p, Push(Do(Opt(x)), k))
    ensures Chain(prog, p, OptionsOf(Push(Do(Opt(x)), k)))
  {
    hide Emit;
    hide Has;
    hide LinkAt;
    hide At;
    AtDo(prog, p, Opt(x), k);
    var link := LinkAt(prog, p + TailAt(Opt(x)));
    var body := Emit(x, Onward(x) + 3);
    OptEmit(x, link);
    HasBounds(prog, p, OptCode(body, link));
    OptParts(prog, p, body, link);
    HasNode(prog, p, BRANCH, |body| + 3);
    HasNode(prog, p + 3 + |body|, BRANCH, 3);
    HasNode(prog, p + 6 + |body|, NOTHING, link);
    AtSkip(prog, p + 6 + |body|, k);
    AtFragment(prog, p + 3, x, Onward(x) + 3, Push(Skip, k));
    LoopEnd(prog, p + 3 + |body|, k);
  }
}
