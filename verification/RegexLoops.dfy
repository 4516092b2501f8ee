/**
 The code sequences for repetition, step by step: which chain of links each
 step of the compiler extends, and what the code is after that.
 */
module RegexLoops {
  import opened RegexSyntax
  import opened RegexCode
  import opened RegexLinks
  import opened RegexPatch

  lemma Regroup4(a: Cells, b: Cells, c: Cells, d: Cells)
    ensures a + (b + c) + d == (a + b) + c + d
    ensures a + b + (c + d) == a + b + c + d
    ensures a + b + c + d == a + (b + c) + d
  {
  }

  // Setting the link of one part of a sum.

  lemma Patch1of3(op: int, v: nat, c2: Cells, c3: Cells)
    ensures SetLink(Node(op, 0) + c2 + c3, 0, v) == Node(op, v) + c2 + c3
  {
  }

  lemma PatchNodePart(c1: Cells, op: int, v: nat, c3: Cells)
    ensures SetLink(c1 + Node(op, 0) + c3, |c1|, v) == c1 + Node(op, v) + c3
  {
  }

  lemma PatchEmitPart(c1: Cells, x: Re, v: nat, c3: Cells)
    ensures SetLink(c1 + Emit(x, 0) + c3, |c1| + TailAt(x), v) == c1 + Emit(x, v) + c3
  {
    hide Emit;
    hide SetLink;
    PatchPart(c1, Emit(x, 0), c3, TailAt(x), v);
    EmitLinked(x, v);
  }

  // The parts of a sum, as a program of its own.

  lemma Parts3(c1: Cells, c2: Cells, c3: Cells)
    ensures var c := c1 + c2 + c3;
            Has(c, 0, c1) && Has(c, |c1|, c2) && Has(c, |c1| + |c2|, c3)
  {
  }

  /** Setting the link of a fragment that stands alone in a chain. */
  lemma FragmentStep(c1: Cells, x: Re, v: nat, c3: Cells)
    requires Wf(x)
    ensures var c := c1 + Emit(x, 0) + c3; var n := |c1| + TailAt(x);
            && SetLink(c, n, v) == c1 + Emit(x, v) + c3
            && c[n] != BACK
            && (|c| <= MAX_PROGRAM ==> Loose(c, |c1|, n))
  {
    hide Emit;
    hide Has;
    hide Loose;
    hide SetLink;
    var c := c1 + Emit(x, 0) + c3;
    PatchEmitPart(c1, x, v, c3);
    Parts3(c1, Emit(x, 0), c3);
    TailOp(c, |c1|, x, 0);
    if |c| <= MAX_PROGRAM {
      LooseFragment(c, |c1|, x);
    }
  }

  /** Setting the tail link of an alternative behind its BRANCH node. */
  lemma BranchStep(c1: Cells, b: Branch, v: nat, c3: Cells)
    requires b.Cons? && WfB(b)
    ensures var c := c1 + EmitB(b, 0) + c3; var n := |c1| + TailAtB(b);
            && SetLink(c, n, v) == c1 + EmitB(b, v) + c3
            && c[n] != BACK
            && (|c| <= MAX_PROGRAM ==> Loose(c, |c1|, n))
  {
    hide EmitB;
    hide Has;
    hide Loose;
    hide SetLink;
    var c := c1 + EmitB(b, 0) + c3;
    PatchBranchPart(c1, b, v, c3);
    Parts3(c1, EmitB(b, 0), c3);
    BranchTailOp(c, |c1|, b);
    if |c| <= MAX_PROGRAM {
      LooseBranch(c, |c1|, b);
    }
  }

  // ----- x* -----

  function Star1(x: Re, l2: nat, l3: nat): (r: Cells)
    ensures |r| == Size(x) + 6
  {
    Node(BRANCH, 0) + Emit(x, l2) + Node(BACK, l3)
  }

  function Star2(x: Re, l1: nat, l4: nat): (r: Cells)
    ensures |r| == Size(x) + 9
  {
    Node(BRANCH, l1) + Emit(x, Onward(x)) + Node(BACK, Size(x) + 3) + Node(BRANCH, l4)
  }

  lemma StarStep1(x: Re)
    requires Wf(x)
    ensures SetLink(Star1(x, 0, 0), 3 + TailAt(x), Onward(x)) == Star1(x, Onward(x), 0)
    ensures Star1(x, 0, 0)[0] == BRANCH && Star1(x, 0, 0)[3 + TailAt(x)] != BACK
    ensures |Star1(x, 0, 0)| <= MAX_PROGRAM ==> Loose(Star1(x, 0, 0), 3, 3 + TailAt(x))
  {
    hide Emit;
    hide Loose;
    hide SetLink;
    FragmentStep(Node(BRANCH, 0), x, Onward(x), Node(BACK, 0));
  }

  lemma StarStep2(x: Re)
    requires Wf(x)
    ensures SetLink(Star1(x, Onward(x), 0), 3 + Size(x), Size(x) + 3) == Star1(x, Onward(x), Size(x) + 3)
    ensures Star1(x, Onward(x), 0)[0] == BRANCH && Star1(x, Onward(x), 0)[3 + Size(x)] == BACK
    ensures |Star1(x, Onward(x), 0)| <= MAX_PROGRAM ==> Loose(Star1(x, Onward(x), 0), 3, 3 + Size(x))
  {
    hide Emit;
    hide Has;
    hide Loose;
    hide SetLink;
    var c := Star1(x, Onward(x), 0);
    TailOfSum(Node(BRANCH, 0) + Emit(x, Onward(x)), BACK, Size(x) + 3);
    Parts3(Node(BRANCH, 0), Emit(x, Onward(x)), Node(BACK, 0));
    LooseNode(c, 0, BRANCH);
    LooseNode(c, 3 + Size(x), BACK);
    if |c| <= MAX_PROGRAM {
      LooseThrough(c, 3, x, Onward(x), 3 + Size(x));
    }
  }

  lemma StarStep3(x: Re)
    ensures SetLink(Star1(x, Onward(x), Size(x) + 3) + Node(BRANCH, 0), 0, Size(x) + 6) == Star2(x, Size(x) + 6, 0)
    ensures (Star1(x, Onward(x), Size(x) + 3) + Node(BRANCH, 0))[0] == BRANCH
    ensures Loose(Star1(x, Onward(x), Size(x) + 3) + Node(BRANCH, 0), 0, 0)
  {
    hide Emit;
    hide Loose;
    hide SetLink;
    var c2, c3, c4 := Emit(x, Onward(x)), Node(BACK, Size(x) + 3), Node(BRANCH, 0);
    var c := Star1(x, Onward(x), Size(x) + 3) + c4;
    assert c == Node(BRANCH, 0) + c2 + (c3 + c4);
    Patch1of3(BRANCH, Size(x) + 6, c2, c3 + c4);
    assert Star2(x, Size(x) + 6, 0) == Node(BRANCH, Size(x) + 6) + c2 + (c3 + c4);
    Parts3(Node(BRANCH, 0), c2, c3 + c4);
    LooseNode(c, 0, BRANCH);
  }

  lemma StarStep4(x: Re)
    ensures SetLink(Star2(x, Size(x) + 6, 0) + Node(NOTHING, 0), Size(x) + 6, 3) == StarCode(Emit(x, Onward(x)), 0)
    ensures (Star2(x, Size(x) + 6, 0) + Node(NOTHING, 0))[Size(x) + 6] == BRANCH
    ensures Size(x) + 12 <= MAX_PROGRAM ==> Loose(Star2(x, Size(x) + 6, 0) + Node(NOTHING, 0), 0, Size(x) + 6)
  {
    hide Emit;
    hide Loose;
    hide SetLink;
    hide Node;
    hide Has;
    var b, body, k := Node(BRANCH, Size(x) + 6), Emit(x, Onward(x)), Node(BACK, Size(x) + 3);
    var c := Star2(x, Size(x) + 6, 0) + Node(NOTHING, 0);
    PatchNodePart(b + body + k, BRANCH, 3, Node(NOTHING, 0));
    Parts3(b + body + k, Node(BRANCH, 0), Node(NOTHING, 0));
    HasSplit3(c, 0, b, body, k);
    LooseNode(c, Size(x) + 6, BRANCH);
    if Size(x) + 12 <= MAX_PROGRAM {
      LooseVia(c, 0, BRANCH, Size(x) + 6, Size(x) + 6);
    }
  }

  // ----- x+ -----

  function Plus1(x: Re, l1: nat, l2: nat, l3: nat): (r: Cells)
    ensures |r| == Size(x) + 6
  {
    Emit(x, l1) + Node(BRANCH, l2) + Node(BACK, l3)
  }

  lemma PlusStep1(x: Re)
    requires Wf(x)
    ensures SetLink(Emit(x, 0) + Node(BRANCH, 0), TailAt(x), Onward(x)) == Emit(x, Onward(x)) + Node(BRANCH, 0)
    ensures (Emit(x, 0) + Node(BRANCH, 0))[TailAt(x)] != BACK
    ensures Size(x) + 3 <= MAX_PROGRAM ==> Loose(Emit(x, 0) + Node(BRANCH, 0), 0, TailAt(x))
  {
    hide Emit;
    hide Loose;
    hide SetLink;
    assert [] + Emit(x, 0) == Emit(x, 0) && [] + Emit(x, Onward(x)) == Emit(x, Onward(x));
    FragmentStep([], x, Onward(x), Node(BRANCH, 0));
  }

  lemma PlusStep2(x: Re)
    ensures SetLink(Plus1(x, Onward(x), 0, 0), Size(x) + 3, Size(x) + 3) == Plus1(x, Onward(x), 0, Size(x) + 3)
    ensures Plus1(x, Onward(x), 0, 0)[Size(x) + 3] == BACK
    ensures Loose(Plus1(x, Onward(x), 0, 0), Size(x) + 3, Size(x) + 3)
  {
  }

  lemma PlusStep3(x: Re)
    ensures var c := Plus1(x, Onward(x), 0, Size(x) + 3) + Node(BRANCH, 0);
            && SetLink(c, Size(x), 6) == Plus1(x, Onward(x), 6, Size(x) + 3) + Node(BRANCH, 0)
            && c[Size(x)] == BRANCH && Loose(c, Size(x), Size(x))
  {
    hide Emit;
    var body, k, b := Emit(x, Onward(x)), Node(BACK, Size(x) + 3), Node(BRANCH, 0);
    var c := Plus1(x, Onward(x), 0, Size(x) + 3) + b;
    assert c == body + Node(BRANCH, 0) + (k + b);
    assert Plus1(x, Onward(x), 6, Size(x) + 3) + b == body + Node(BRANCH, 6) + (k + b);
    PatchNodePart(body, BRANCH, 6, k + b);
    Parts3(body, Node(BRANCH, 0), k + b);
    LooseNode(c, Size(x), BRANCH);
  }

  lemma PlusStep4(x: Re)
    requires Wf(x)
    ensures var c := Plus1(x, Onward(x), 6, Size(x) + 3) + Node(BRANCH, 0) + Node(NOTHING, 0);
            && SetLink(c, Size(x) + 6, 3) == PlusCode(Emit(x, Onward(x)), 0)
            && c[Size(x) + 6] == BRANCH
            && (|c| <= MAX_PROGRAM ==> Loose(c, 0, Size(x) + 6))
  {
    hide Emit;
    hide Loose;
    hide SetLink;
    var n, body, b, k := Size(x), Emit(x, Onward(x)), Node(BRANCH, 6), Node(BACK, Size(x) + 3);
    var c := Plus1(x, Onward(x), 6, n + 3) + Node(BRANCH, 0) + Node(NOTHING, 0);
    PatchNodePart(body + b + k, BRANCH, 3, Node(NOTHING, 0));
    Parts3(body + b + k, Node(BRANCH, 0), Node(NOTHING, 0));
    HasSplit3(c, 0, body, b, k);
    LooseNode(c, n + 6, BRANCH);
    if |c| <= MAX_PROGRAM {
      LooseVia(c, n, BRANCH, 6, n + 6);
      LooseThrough(c, 0, x, Onward(x), n + 6);
    }
  }

  // ----- x? -----

  lemma OptStep1(x: Re)
    ensures var c := Node(BRANCH, 0) + Emit(x, 0) + Node(BRANCH, 0);
            && SetLink(c, 0, Size(x) + 3) == Node(BRANCH, Size(x) + 3) + Emit(x, 0) + Node(BRANCH, 0)
            && c[0] == BRANCH && Loose(c, 0, 0)
  {
    hide Emit;
    Patch1of3(BRANCH, Size(x) + 3, Emit(x, 0), Node(BRANCH, 0));
    Parts3(Node(BRANCH, 0), Emit(x, 0), Node(BRANCH, 0));
    LooseNode(Node(BRANCH, 0) + Emit(x, 0) + Node(BRANCH, 0), 0, BRANCH);
  }

  lemma OptStep2(x: Re)
    ensures var c := Node(BRANCH, Size(x) + 3) + Emit(x, 0) + Node(BRANCH, 0) + Node(NOTHING, 0);
            && SetLink(c, Size(x) + 3, 3) == OptCode(Emit(x, 0), 0)
            && c[Size(x) + 3] == BRANCH
            && (|c| <= MAX_PROGRAM ==> Loose(c, 0, Size(x) + 3))
  {
    hide Emit;
    hide Loose;
    hide SetLink;
    var b, body := Node(BRANCH, Size(x) + 3), Emit(x, 0);
    var c := b + body + Node(BRANCH, 0) + Node(NOTHING, 0);
    PatchNodePart(b + body, BRANCH, 3, Node(NOTHING, 0));
    Parts3(b + body, Node(BRANCH, 0), Node(NOTHING, 0));
    HasSplit(c, 0, b, body);
    LooseNode(c, Size(x) + 3, BRANCH);
    if |c| <= MAX_PROGRAM {
      LooseVia(c, 0, BRANCH, Size(x) + 3, Size(x) + 3);
    }
  }

  lemma OptStep3(x: Re)
    requires Wf(x)
    ensures var c := OptCode(Emit(x, 0), 0);
            && SetLink(c, 3 + TailAt(x), Onward(x) + 3) == OptCode(Emit(x, Onward(x) + 3), 0)
            && c[0] == BRANCH && c[3 + TailAt(x)] != BACK
            && (|c| <= MAX_PROGRAM ==> Loose(c, 3, 3 + TailAt(x)))
  {
    hide Emit;
    hide Loose;
    hide SetLink;
    var b, e := Node(BRANCH, Size(x) + 3), Node(BRANCH, 3) + Node(NOTHING, 0);
    var c := OptCode(Emit(x, 0), 0);
    assert c == b + Emit(x, 0) + e;
    assert OptCode(Emit(x, Onward(x) + 3), 0) == b + Emit(x, Onward(x) + 3) + e;
    FragmentStep(b, x, Onward(x) + 3, e);
  }

  // ----- concatenation -----

  /** One alternative before anything is linked to it. */
  function OpenB(b: Branch): (r: Cells)
    ensures |r| == 3 + SizeB(b)
  {
    Node(BRANCH, 0) + EmitB(b, 0)
  }

  /** The code before the last piece of an alternative. */
  function BeforeLast(init: Branch): (r: Cells)
    ensures |r| == 3 + SizeB(init)
  {
    Node(BRANCH, 0) + (if init.Nil? then [] else EmitB(init, OnwardB(init)))
  }

  lemma OpenSnoc(init: Branch, last: Re, link: nat)
    ensures Node(BRANCH, 0) + EmitB(Snoc(init, last), link) == BeforeLast(init) + Emit(last, link)
  {
    hide Emit;
    hide EmitB;
    hide Node;
    EmitSnoc(init, last, link);
    var e := if init.Nil? then [] else EmitB(init, OnwardB(init));
    assert Node(BRANCH, 0) + (e + Emit(last, link)) == (Node(BRANCH, 0) + e) + Emit(last, link);
  }

  lemma OpenTwo(b: Branch, p: Re)
    requires b.Cons?
    ensures OpenB(Snoc(b, p)) == Node(BRANCH, 0) + EmitB(b, OnwardB(b)) + Emit(p, 0)
  {
    hide Emit;
    hide EmitB;
    hide Node;
    EmitSnoc(b, p, 0);
    var e := EmitB(b, OnwardB(b));
    assert Node(BRANCH, 0) + (e + Emit(p, 0)) == (Node(BRANCH, 0) + e) + Emit(p, 0);
  }

  lemma PieceCode(init: Branch, last: Re, p: Re)
    ensures OpenB(Snoc(init, last)) + Emit(p, 0) == BeforeLast(init) + Emit(last, 0) + Emit(p, 0)
    ensures OpenB(Snoc(Snoc(init, last), p)) == BeforeLast(init) + Emit(last, Onward(last)) + Emit(p, 0)
  {
    hide Emit;
    hide EmitB;
    hide Node;
    hide BeforeLast;
    SizeSnoc(init, last);
    OpenSnoc(init, last, 0);
    OpenTwo(Snoc(init, last), p);
    OpenSnoc(init, last, Onward(last));
  }

  /** Linking the last piece of an alternative to the next one. */
  lemma PieceStep(init: Branch, last: Re, p: Re)
    requires Wf(last)
    ensures var b := Snoc(init, last); var c := OpenB(b) + Emit(p, 0);
            var n := 3 + SizeB(init) + TailAt(last);
            && n + 2 < |c| && SetLink(c, n, Onward(last)) == OpenB(Snoc(b, p))
            && c[n] != BACK
            && (|c| <= MAX_PROGRAM ==> Loose(c, 3 + SizeB(init), n))
  {
    hide *;
    PieceCode(init, last, p);
    FragmentStep(BeforeLast(init), last, Onward(last), Emit(p, 0));
  }

  // ----- alternation -----

  /** What stands before a choice: the opening node of a group, or nothing. */
  predicate IsPre(pre: Cells) {
    pre == [] || (pre == Node(pre[0], 3) && pre[0] != BACK && pre[0] != BRANCH)
  }

  /** The opening node of a group, linked to the choice behind it. */
  function Before(paren: bool, op: int): (r: Cells)
    ensures |r| == if paren then 3 else 0
    ensures op != BACK && op != BRANCH ==> IsPre(r)
  {
    if paren then Node(op, 3) else []
  }

  /** Linking the opening node to the first alternative. */
  lemma OpenStep(op: int, b: Branch)
    ensures var c := Node(op, 0) + OpenB(b);
            && SetLink(c, 0, 3) == Before(true, op) + EmitA(ANil, -1) + OpenB(b)
            && c[0] == op && Loose(c, 0, 0)
  {
  }

  lemma LoosePre(c: Cells, pre: Cells, t: nat)
    requires IsPre(pre) && Has(c, 0, pre) && Loose(c, |pre|, t)
    ensures Loose(c, 0, t)
  {
    if pre != [] {
      LooseVia(c, 0, pre[0], 3, t);
    }
  }

  /** Linking the last alternative to what follows: the next one or the closing node. */
  lemma AltStep(pre: Cells, acc: Alts, last: Branch, rest: Cells)
    requires IsPre(pre) && WfA(acc)
    ensures var c := pre + EmitA(acc, -1) + OpenB(last) + rest; var n := |pre| + SizeA(acc);
            && n + 2 < |c| && SetLink(c, n, 3 + SizeB(last)) == pre + EmitA(SnocA(acc, last), -1) + rest
            && c[n] == BRANCH
            && (|c| <= MAX_PROGRAM ==> Loose(c, 0, n))
  {
    hide EmitA;
    hide EmitB;
    hide Has;
    hide Loose;
    hide SetLink;
    hide Node;
    hide IsPre;
    hide SizeA;
    hide SizeB;
    var e, b := EmitA(acc, -1), EmitB(last, 0);
    var c := pre + e + OpenB(last) + rest;
    AltForm(pre, acc, last, rest);
    Regroup4(pre + e, Node(BRANCH, 0), b, rest);
    Parts3(pre + e, Node(BRANCH, 0), b + rest);
    HasSplit(c, 0, pre, e);
    LooseNode(c, |pre| + |e|, BRANCH);
    if |c| <= MAX_PROGRAM {
      WalkChoice(c, |pre|, acc, -1);
      LooseWalk(c, |pre|, |pre| + |e|);
      LoosePre(c, pre, |pre| + |e|);
    }
  }

  /** Patching the last branch of a choice that is still open. */
  lemma AltForm(pre: Cells, acc: Alts, last: Branch, rest: Cells)
    ensures var c := pre + EmitA(acc, -1) + OpenB(last) + rest; var n := |pre| + SizeA(acc);
            n + 2 < |c| && SetLink(c, n, 3 + SizeB(last)) == pre + EmitA(SnocA(acc, last), -1) + rest
  {
    hide EmitA;
    hide EmitB;
    hide SetLink;
    hide Node;
    hide SizeA;
    hide SizeB;
    var e, b := EmitA(acc, -1), EmitB(last, 0);
    Regroup4(pre + e, Node(BRANCH, 0), b, rest);
    Regroup4(pre + e, Node(BRANCH, 3 + SizeB(last)), b, rest);
    Regroup4(pre, e, Node(BRANCH, 3 + SizeB(last)) + b, rest);
    PatchNodePart(pre + e, BRANCH, 3 + SizeB(last), b + rest);
    EmitSnocA(acc, last, -1);
  }

  lemma LooseWalk(c: Cells, p: nat, t: nat)
    requires Loose(c, t, t) && Walk(c, p, t)
    ensures Loose(c, p, t)
  {
  }

  lemma TailNode(c1: Cells, op: int, link: nat, c2: Cells, c3: Cells)
    ensures var c := c1 + Node(op, link) + c2 + c3;
            && c[|c1|] == op && (link <= MAX_PROGRAM ==> LinkAt(c, |c1|) == link)
  {
  }

  lemma OpenForm(b: Branch, rest: Alts)
    ensures EmitA(ACons(b, rest), -1) == Node(BRANCH, 3 + SizeB(b)) + EmitB(b, 0) + EmitA(rest, -1)
  {
    hide EmitB;
    hide Node;
    hide SizeB;
  }

  lemma DoneForm(done: Alts, b: Branch, rest: nat)
    requires b.Cons?
    ensures EmitA(SnocA(done, b), rest) ==
            EmitA(done, rest + 3 + SizeB(b)) + (Node(BRANCH, 3 + SizeB(b)) + EmitB(b, OnwardB(b) + rest))
  {
    hide EmitA;
    hide EmitB;
    hide Node;
    EmitSnocA(done, b, rest);
  }

  lemma Regroup6(a: Cells, b: Cells, c: Cells, d: Cells, e: Cells, f: Cells)
    ensures a + b + (c + d + e) + f == a + b + c + d + (e + f)
    ensures a + (b + (c + d)) + e + f == a + b + c + d + (e + f)
  {
  }

  lemma {:induction false} BranchTailOp(c: Cells, p: nat, b: Branch)
    requires b.Cons? && Has(c, p, EmitB(b, 0))
    ensures p + TailAtB(b) + 2 < |c| && c[p + TailAtB(b)] != BACK
    decreases b
  {
    hide Emit;
    hide Has;
    if b.tail.Nil? {
      TailOp(c, p, b.head, 0);
    } else {
      HasSplit(c, p, Emit(b.head, Onward(b.head)), EmitB(b.tail, 0));
      BranchTailOp(c, p + Size(b.head), b.tail);
    }
  }

  lemma PatchBranchPart(c1: Cells, b: Branch, v: nat, c3: Cells)
    requires b.Cons?
    ensures SetLink(c1 + EmitB(b, 0) + c3, |c1| + TailAtB(b), v) == c1 + EmitB(b, v) + c3
  {
    hide EmitB;
    hide SetLink;
    PatchPart(c1, EmitB(b, 0), c3, TailAtB(b), v);
    BranchLinked(b, v);
  }

  lemma {:induction false} BranchLinked(b: Branch, v: nat)
    requires b.Cons?
    ensures EmitB(b, v) == SetLink(EmitB(b, 0), TailAtB(b), v)
    decreases b
  {
    hide Emit;
    if b.tail.Nil? {
      EmitLinked(b.head, v);
    } else {
      hide SetLink;
      BranchLinked(b.tail, v);
      var c := Emit(b.head, Onward(b.head));
      assert c + EmitB(b.tail, 0) + [] == c + EmitB(b.tail, 0);
      assert c + EmitB(b.tail, v) + [] == c + EmitB(b.tail, v);
      PatchPart(c, EmitB(b.tail, 0), [], TailAtB(b.tail), v);
    }
  }

  /** A choice of which the alternatives done have been hooked to the closing node. */
  function Hooked(pre: Cells, done: Alts, rest: Alts, e: int): (r: Cells)
    ensures |r| == |pre| + SizeA(done) + SizeA(rest) + 3
  {
    pre + EmitA(done, SizeA(rest)) + EmitA(rest, -1) + Node(e, 0)
  }

  lemma HookedEnds(pre: Cells, alts: Alts, e: int)
    ensures Hooked(pre, ANil, alts, e) == pre + EmitA(alts, -1) + Node(e, 0)
    ensures Hooked(pre, alts, ANil, e) == pre + EmitA(alts, 0) + Node(e, 0)
  {
  }

  lemma HookedOpen(pre: Cells, rest: Alts, e: int)
    requires IsPre(pre) && pre != []
    ensures var c := Hooked(pre, ANil, rest, e); c[0] == pre[0] && LinkAt(c, 0) == 3
  {
  }

  lemma HookedClosed(pre: Cells, done: Alts, e: int)
    ensures var c := Hooked(pre, done, ANil, e); var q := |pre| + SizeA(done);
            c[q] == e && LinkAt(c, q) == 0
  {
    hide EmitA;
    HookedEnds(pre, done, e);
    var x := pre + EmitA(done, 0);
    TailNode(x, e, 0, [], []);
    assert x + Node(e, 0) + [] + [] == x + Node(e, 0);
  }

  /** The code in front of the next alternative to be hooked, and behind it. */
  function HookBefore(pre: Cells, done: Alts, b: Branch, rest: Alts): (r: Cells)
    ensures |r| == |pre| + SizeA(done) + 3
  {
    pre + EmitA(done, SizeA(rest) + 3 + SizeB(b)) + Node(BRANCH, 3 + SizeB(b))
  }

  function HookAfter(rest: Alts, e: int): (r: Cells)
    ensures |r| == SizeA(rest) + 3
  {
    EmitA(rest, -1) + Node(e, 0)
  }

  lemma HookedForm(pre: Cells, done: Alts, b: Branch, rest: Alts, e: int)
    ensures Hooked(pre, done, ACons(b, rest), e) == HookBefore(pre, done, b, rest) + EmitB(b, 0) + HookAfter(rest, e)
  {
    hide EmitA;
    hide EmitB;
    hide Node;
    SizeOfCons(b, rest);
    OpenForm(b, rest);
    Regroup6(pre, EmitA(done, SizeA(rest) + 3 + SizeB(b)), Node(BRANCH, 3 + SizeB(b)), EmitB(b, 0), EmitA(rest, -1),
             Node(e, 0));
  }

  lemma HookedNext(pre: Cells, done: Alts, b: Branch, rest: Alts, e: int)
    requires b.Cons?
    ensures Hooked(pre, SnocA(done, b), rest, e) ==
            HookBefore(pre, done, b, rest) + EmitB(b, OnwardB(b) + SizeA(rest)) + HookAfter(rest, e)
  {
    hide EmitA;
    hide EmitB;
    hide Node;
    hide OnwardB;
    hide SizeA;
    hide SizeB;
    hide SnocA;
    var link := OnwardB(b) + SizeA(rest);
    DoneForm(done, b, SizeA(rest));
    Regroup6(pre, EmitA(done, SizeA(rest) + 3 + SizeB(b)), Node(BRANCH, 3 + SizeB(b)), EmitB(b, link),
             EmitA(rest, -1), Node(e, 0));
  }

  lemma SizeOfCons(b: Branch, rest: Alts)
    ensures SizeA(ACons(b, rest)) == SizeA(rest) + 3 + SizeB(b)
  {
  }

  lemma BranchNode(pre: Cells, done: Alts, b: Branch, rest: Alts, c2: Cells, c3: Cells)
    ensures var c := HookBefore(pre, done, b, rest) + c2 + c3; var q := |pre| + SizeA(done);
            && c[q] == BRANCH && (|c| <= MAX_PROGRAM && 3 + SizeB(b) <= MAX_PROGRAM ==> LinkAt(c, q) == 3 + SizeB(b))
  {
    hide EmitA;
    hide LinkAt;
    TailNode(pre + EmitA(done, SizeA(rest) + 3 + SizeB(b)), BRANCH, 3 + SizeB(b), c2, c3);
  }

  /** Hooking the tail of the next alternative to the closing node: the link that is set. */
  lemma HookTail(pre: Cells, done: Alts, b: Branch, rest: Alts, e: int, p: nat, n: nat, link: nat)
    requires b.Cons? && WfB(b) && p == |pre| + SizeA(done) + 3 && n == p + TailAtB(b)
             && link == OnwardB(b) + SizeA(rest)
    ensures var c := Hooked(pre, done, ACons(b, rest), e);
            && n + 2 < |c| && c[n] != BACK && SetLink(c, n, link) == Hooked(pre, SnocA(done, b), rest, e)
            && (|c| <= MAX_PROGRAM ==> Loose(c, p, n))
  {
    hide *;
    var before, after := HookBefore(pre, done, b, rest), HookAfter(rest, e);
    var c, c' := Hooked(pre, done, ACons(b, rest), e), Hooked(pre, SnocA(done, b), rest, e);
    assert c == before + EmitB(b, 0) + after by {
      HookedForm(pre, done, b, rest, e);
    }
    assert c' == before + EmitB(b, link) + after by {
      HookedNext(pre, done, b, rest, e);
    }
    HookTailOf(before, b, link, after, c, c', p, n);
  }

  lemma HookTailOf(before: Cells, b: Branch, link: nat, after: Cells, c: Cells, c': Cells, p: nat, n: nat)
    requires b.Cons? && WfB(b) && c == before + EmitB(b, 0) + after && c' == before + EmitB(b, link) + after
    requires p == |before| && n == p + TailAtB(b)
    ensures n + 2 < |c| && c[n] != BACK && SetLink(c, n, link) == c' && (|c| <= MAX_PROGRAM ==> Loose(c, p, n))
  {
    hide *;
    BranchStep(before, b, link, after);
  }

  /** The node that it is done from. */
  lemma HookNode(pre: Cells, done: Alts, b: Branch, rest: Alts, e: int)
    requires b.Cons?
    ensures var c := Hooked(pre, done, ACons(b, rest), e); var c' := Hooked(pre, SnocA(done, b), rest, e);
            var q := |pre| + SizeA(done);
            && |c'| == |c| && q + 2 < |c| && c[q] == BRANCH
            && (|c| <= MAX_PROGRAM ==> LinkAt(c', q) == 3 + SizeB(b))
  {
    hide *;
    HookedForm(pre, done, b, rest, e);
    HookedNext(pre, done, b, rest, e);
    SizeOfCons(b, rest);
    SizeSnocA(done, b);
    BranchNode(pre, done, b, rest, EmitB(b, 0), HookAfter(rest, e));
    BranchNode(pre, done, b, rest, EmitB(b, OnwardB(b) + SizeA(rest)), HookAfter(rest, e));
  }

  /** A node that the hooking loop can be at. */
  predicate HookPlace(pre: Cells, done: Alts, q: int) {
    (q == 0 && done == ANil && pre != []) || q == |pre| + SizeA(done)
  }

  /**
   One step of the hooking loop, at q: it turns cells c into c' by setting link v
   at n, to lead to place out, and goes on to place next, unless it was the last.
   */
  ghost predicate PlannedCells(c: Cells, c': Cells, q: nat, n: nat, v: nat, out: int, next: int, last: bool) {
    && n + 2 < |c| && q + 2 < |c|
    && (if c[q] == BRANCH then SetLink(c, n, v) else c) == c'
    && (|c| <= MAX_PROGRAM && c[q] == BRANCH ==> Loose(c, q + 3, n) && c[n] != BACK && n + v == out)
    && (|c| <= MAX_PROGRAM ==>
          && c'[q] != BACK
          && if LinkAt(c', q) == 0 then last else q + LinkAt(c', q) == next && LinkAt(c', q) >= 3)
  }

  ghost predicate Planned(pre: Cells, done: Alts, rest: Alts, e: int, q: nat, n: nat, v: nat, done': Alts,
                          rest': Alts) {
    && AppendA(done', rest') == AppendA(done, rest) && WfA(rest')
    && SizeA(done') + SizeA(rest') == SizeA(done) + SizeA(rest)
    && PlannedCells(Hooked(pre, done, rest, e), Hooked(pre, done', rest', e), q, n, v,
                    |pre| + SizeA(done) + SizeA(rest), |pre| + SizeA(done'), rest' == ANil)
  }

  lemma HookPlan(pre: Cells, done: Alts, rest: Alts, e: int, q: nat)
    returns (n: nat, v: nat, done': Alts, rest': Alts)
    requires IsPre(pre) && WfA(rest) && e != BRANCH && e != BACK && HookPlace(pre, done, q)
    ensures Planned(pre, done, rest, e, q, n, v, done', rest')
  {
    hide Planned;
    hide IsPre;
    hide SizeA;
    hide TailAtB;
    hide OnwardB;
    hide SnocA;
    hide WfB;
    n, v, done', rest' := 0, 0, done, rest;
    if q == 0 && done == ANil && pre != [] {
      PlanOpen(pre, rest, e);
    } else if rest.ANil? {
      PlanClosed(pre, done, e);
    } else {
      n, v := q + 3 + TailAtB(rest.first), OnwardB(rest.first) + SizeA(rest.rest);
      done', rest' := SnocA(done, rest.first), rest.rest;
      PlanNext(pre, done, rest.first, rest.rest, e, q);
    }
  }

  lemma PlanOpen(pre: Cells, rest: Alts, e: int)
    requires IsPre(pre) && pre != [] && WfA(rest)
    ensures Planned(pre, ANil, rest, e, 0, 0, 0, ANil, rest)
  {
    hide Hooked;
    hide LinkAt;
    HookedOpen(pre, rest, e);
  }

  lemma PlanClosed(pre: Cells, done: Alts, e: int)
    requires e != BRANCH && e != BACK
    ensures Planned(pre, done, ANil, e, |pre| + SizeA(done), 0, 0, done, ANil)
  {
    hide Hooked;
    hide LinkAt;
    HookedClosed(pre, done, e);
  }

  lemma PlanNext(pre: Cells, done: Alts, b: Branch, rest: Alts, e: int, q: nat)
    requires b.Cons? && WfB(b) && WfA(rest) && q == |pre| + SizeA(done)
    ensures Planned(pre, done, ACons(b, rest), e, q,
                    q + 3 + TailAtB(b), OnwardB(b) + SizeA(rest), SnocA(done, b), rest)
  {
    hide Hooked;
    hide Loose;
    hide LinkAt;
    hide SetLink;
    hide SizeA;
    hide SizeB;
    hide AppendA;
    hide SnocA;
    hide TailAtB;
    hide OnwardB;
    hide WfA;
    hide WfB;
    hide PlannedCells;
    var n, v := q + 3 + TailAtB(b), OnwardB(b) + SizeA(rest);
    HookTail(pre, done, b, rest, e, q + 3, n, v);
    HookNode(pre, done, b, rest, e);
    SizeOfCons(b, rest);
    SizeSnocA(done, b);
    AppendSnocA(done, b, rest);
    OnwardIs(b);
    PlanCells(Hooked(pre, done, ACons(b, rest), e), Hooked(pre, SnocA(done, b), rest, e), q, n, v, 3 + SizeB(b),
              |pre| + SizeA(done) + SizeA(ACons(b, rest)), |pre| + SizeA(SnocA(done, b)), rest == ANil);
  }

  lemma PlanCells(c: Cells, c': Cells, q: nat, n: nat, v: nat, link: nat, out: int, next: int, last: bool)
    requires n + 2 < |c| == |c'| && q + 2 < n && c[q] == BRANCH && c[n] != BACK && SetLink(c, n, v) == c'
             && n + v == out
    requires link >= 3 && q + link == next && (|c| <= MAX_PROGRAM ==> Loose(c, q + 3, n) && LinkAt(c', q) == link)
    ensures PlannedCells(c, c', q, n, v, out, next, last)
  {
    hide Loose;
    hide LinkAt;
    HookKept(c, n, v, q);
  }

  lemma OnwardIs(b: Branch)
    requires b.Cons?
    ensures TailAtB(b) + OnwardB(b) == SizeB(b)
  {
  }

  lemma HookKept(c: Cells, n: nat, v: nat, q: nat)
    requires n + 2 < |c| && q < n
    ensures SetLink(c, n, v)[q] == c[q]
  {
  }

  // ----- whole fragments -----

  lemma EmptyBranch()
    ensures OpenB(Nil) + Node(NOTHING, 0) == OpenB(Cons(Nothing, Nil))
  {
  }

  lemma GroupForm(n: nat, alts: Alts)
    ensures Before(true, SUB_OPEN + n) + EmitA(alts, 0) + Node(SUB_CLOSE + n, 0) == Emit(Group(n, alts), 0)
  {
  }

  lemma TopForm(op: int, alts: Alts)
    ensures Before(false, op) + EmitA(alts, 0) + Node(END, 0) == EmitA(alts, 0) + Node(END, 0)
  {
  }
}
