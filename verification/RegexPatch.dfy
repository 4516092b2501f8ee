/**
 What the compiler does to code it has already emitted: setting the link at the
 end of a chain of nodes. A fragment is emitted with its outgoing link unset;
 following links from its start always arrives at the one node that holds it.
 */
module RegexPatch {
  import opened RegexSyntax
  import opened RegexCode
  import opened RegexLinks

  /** The program with the link of the node at t set to v. */
  function SetLink(pg: Cells, t: nat, v: nat): (r: Cells)
    requires t + 2 < |pg|
    ensures |r| == |pg|
  {
    pg[t + 1 := Hi(v)][t + 2 := Lo(v)]
  }

  lemma HasSame(pg: Cells, pg': Cells, p: int, code: Cells)
    requires Has(pg, p, code) && |pg'| >= p + |code|
    requires forall k :: p <= k < p + |code| ==> pg'[k] == pg[k]
    ensures Has(pg', p, code)
  {
    forall k | 0 <= k < |code| ensures Cell(pg', p, code, k) {
      assert Cell(pg, p, code, k);
    }
  }

  lemma PatchCode(pg: Cells, p: nat, code: Cells, n: nat, v: nat)
    requires Has(pg, p, code) && n + 2 < |code|
    ensures Has(SetLink(pg, p + n, v), p, SetLink(code, n, v))
  {
    var pg', code' := SetLink(pg, p + n, v), SetLink(code, n, v);
    forall k | 0 <= k < |code'| ensures Cell(pg', p, code', k) {
      assert Cell(pg, p, code, k);
    }
  }

  // ----- the outgoing link of a fragment -----

  lemma TailOfSum(c1: Cells, op: int, v: nat)
    ensures SetLink(c1 + Node(op, 0), |c1|, v) == c1 + Node(op, v)
  {
  }

  lemma HeadOfSum(op: int, c2: Cells, v: nat)
    ensures SetLink(Node(op, 0) + c2, 0, v) == Node(op, v) + c2
  {
  }

  lemma StringTail(op: int, t: Text, v: nat)
    ensures SetLink(StringCode(op, t, 0), 0, v) == StringCode(op, t, v)
  {
  }

  /** Setting the link at TailAt is all it takes to link a fragment. */
  lemma EmitLinked(re: Re, v: nat)
    ensures Emit(re, v) == SetLink(Emit(re, 0), TailAt(re), v)
  {
    hide *;
    if re.Star? || re.Plus? || re.Opt? {
      LoopLinked(re, v);
    } else {
      LeafLinked(re, v);
    }
  }

  lemma LeafLinked(re: Re, v: nat)
    requires !(re.Star? || re.Plus? || re.Opt?)
    ensures Emit(re, v) == SetLink(Emit(re, 0), TailAt(re), v)
  {
    hide EmitA;
    hide SetLink;
    hide Node;
    hide StringCode;
    hide GroupCode;
    match re
    case Nothing => Single(NOTHING, v);
    case Bol => Single(BOL, v);
    case Eol => Single(EOL, v);
    case Any => Single(ANY, v);
    case AnyOf(cs) => StringTail(ANYOF, cs, v);
    case AnyBut(cs) => StringTail(ANYBUT, cs, v);
    case Lit(t) => StringTail(EXACTLY, t, v);
    case Group(n, alts) => GroupTail(n, EmitA(alts, 0), v);
  }

  lemma LoopLinked(re: Re, v: nat)
    requires re.Star? || re.Plus? || re.Opt?
    ensures Emit(re, v) == SetLink(Emit(re, 0), TailAt(re), v)
  {
    hide SetLink;
    hide Node;
    hide StarCode;
    hide PlusCode;
    hide OptCode;
    match re
    case Star(x) =>
      if Simple(x) {
        HeadOfSum(STAR, Emit(x, 0), v);
      } else {
        StarTail(Emit(x, Onward(x)), v);
      }
    case Plus(x) =>
      if Simple(x) {
        HeadOfSum(PLUS, Emit(x, 0), v);
      } else {
        PlusTail(Emit(x, Onward(x)), v);
      }
    case Opt(x) => OptTail(Emit(x, Onward(x) + 3), v);
  }

  lemma Single(op: int, v: nat)
    ensures SetLink(Node(op, 0), 0, v) == Node(op, v)
  {
  }

  lemma GroupTail(n: nat, body: Cells, v: nat)
    ensures SetLink(GroupCode(n, body, 0), |body| + 3, v) == GroupCode(n, body, v)
  {
  }

  lemma StarTail(body: Cells, v: nat)
    ensures SetLink(StarCode(body, 0), |body| + 9, v) == StarCode(body, v)
  {
  }

  lemma PlusTail(body: Cells, v: nat)
    ensures SetLink(PlusCode(body, 0), |body| + 9, v) == PlusCode(body, v)
  {
  }

  lemma OptTail(body: Cells, v: nat)
    ensures SetLink(OptCode(body, 0), |body| + 6, v) == OptCode(body, v)
  {
  }

  // ----- following links -----

  /** Following links from p arrives at q; no node passed is a BACK. */
  ghost predicate Walk(pg: Cells, p: nat, q: nat)
    decreases q - p
  {
    p == q ||
    (p < q && p + 2 < |pg| && pg[p] != BACK && LinkAt(pg, p) > 0 && Walk(pg, p + LinkAt(pg, p), q))
  }

  lemma WalkNode(pg: Cells, p: nat, op: int, link: nat, q: nat)
    requires Has(pg, p, Node(op, link)) && 0 < link <= MAX_PROGRAM && op != BACK
    requires p + link <= q && Walk(pg, p + link, q)
    ensures Walk(pg, p, q)
  {
    HasNode(pg, p, op, link);
  }

  lemma {:induction false} WalkOn(pg: Cells, p: nat, q: nat, r: nat)
    requires Walk(pg, p, q) && Walk(pg, q, r) && p <= q <= r
    ensures Walk(pg, p, r)
    decreases q - p
  {
    if p < q {
      hide LinkAt;
      var n := p + LinkAt(pg, p);
      WalkInside(pg, n, q);
      WalkOn(pg, n, q, r);
    }
  }

  lemma WalkInside(pg: Cells, p: nat, q: nat)
    requires Walk(pg, p, q)
    ensures p <= q
  {
  }

  /** The links of a choice lead through all its alternatives to its end. */
  lemma {:induction false} WalkChoice(pg: Cells, p: nat, a: Alts, d: int)
    requires WfA(a) && |pg| <= MAX_PROGRAM && Has(pg, p, EmitA(a, d))
    ensures Walk(pg, p, p + SizeA(a))
    decreases a
  {
    hide Has;
    hide Walk;
    hide EmitA;
    hide Emit;
    if a.ACons? {
      ChoiceParts(pg, p, a, d);
      HasBounds(pg, p, EmitA(a, d));
      WalkChoice(pg, p + 3 + SizeB(a.first), a.rest, d);
      WalkNode(pg, p, BRANCH, 3 + SizeB(a.first), p + SizeA(a));
    } else {
      WalkSelf(pg, p);
    }
  }

  lemma WalkSelf(pg: Cells, p: nat)
    ensures Walk(pg, p, p)
  {
  }

  lemma WalkStar(pg: Cells, p: nat, body: Cells, link: nat)
    requires |pg| <= MAX_PROGRAM && Has(pg, p, StarCode(body, link))
    ensures Walk(pg, p, p + |body| + 9)
  {
    hide Has;
    hide Walk;
    var t := p + |body| + 9;
    HasBounds(pg, p, StarCode(body, link));
    StarParts(pg, p, body, link);
    WalkSelf(pg, t);
    WalkNode(pg, t - 3, BRANCH, 3, t);
    WalkNode(pg, p, BRANCH, |body| + 6, t);
  }

  lemma WalkOpt(pg: Cells, p: nat, body: Cells, link: nat)
    requires |pg| <= MAX_PROGRAM && Has(pg, p, OptCode(body, link))
    ensures Walk(pg, p, p + |body| + 6)
  {
    hide Has;
    hide Walk;
    var t := p + |body| + 6;
    HasBounds(pg, p, OptCode(body, link));
    OptParts(pg, p, body, link);
    WalkSelf(pg, t);
    WalkNode(pg, t - 3, BRANCH, 3, t);
    WalkNode(pg, p, BRANCH, |body| + 3, t);
  }

  lemma WalkPlusLoop(pg: Cells, p: nat, body: Cells, link: nat)
    requires |pg| <= MAX_PROGRAM && Has(pg, p, PlusCode(body, link))
    ensures Walk(pg, p + |body|, p + |body| + 9)
  {
    hide Has;
    hide Walk;
    var t := p + |body| + 9;
    PlusParts(pg, p, body, link);
    WalkSelf(pg, t);
    WalkNode(pg, t - 3, BRANCH, 3, t);
    WalkNode(pg, t - 9, BRANCH, 6, t);
  }

  lemma WalkGroup(pg: Cells, p: nat, n: nat, alts: Alts, link: nat)
    requires WfA(alts) && |pg| <= MAX_PROGRAM && Has(pg, p, GroupCode(n, EmitA(alts, 0), link))
    ensures Walk(pg, p, p + 3 + SizeA(alts))
  {
    hide Has;
    hide Walk;
    hide EmitA;
    GroupParts(pg, p, n, EmitA(alts, 0), link);
    WalkChoice(pg, p + 3, alts, 0);
    WalkNode(pg, p, SUB_OPEN + n, 3, p + 3 + SizeA(alts));
  }

  /** The links of a fragment lead from its start to its tail node. */
  lemma {:induction false} WalkFragment(pg: Cells, p: nat, re: Re, link: nat)
    requires Wf(re) && |pg| <= MAX_PROGRAM && Has(pg, p, Emit(re, link))
    ensures Walk(pg, p, p + TailAt(re))
    decreases re, 0
  {
    hide Has;
    hide Walk;
    hide Node;
    hide StringCode;
    hide GroupCode;
    hide StarCode;
    hide PlusCode;
    hide OptCode;
    match re
    case Group(n, alts) =>
      WalkGroup(pg, p, n, alts, link);
    case Star(x) =>
      if Simple(x) {
        WalkSelf(pg, p);
      } else {
        WalkStar(pg, p, Emit(x, Onward(x)), link);
      }
    case Plus(x) =>
      if Simple(x) {
        WalkSelf(pg, p);
      } else {
        WalkPlus(pg, p, x, link);
      }
    case Opt(x) => WalkOpt(pg, p, Emit(x, Onward(x) + 3), link);
    case _ => WalkSelf(pg, p);
  }

  lemma {:induction false} WalkPlus(pg: Cells, p: nat, x: Re, link: nat)
    requires Wf(Plus(x)) && !Simple(x) && |pg| <= MAX_PROGRAM && Has(pg, p, Emit(Plus(x), link))
    ensures Walk(pg, p, p + Size(x) + 9)
    decreases x, 2
  {
    hide Has;
    hide Walk;
    hide Emit;
    var body := Emit(x, Onward(x));
    StarEmit(x, link);
    HasBounds(pg, p, PlusCode(body, link));
    PlusParts(pg, p, body, link);
    WalkPlusLoop(pg, p, body, link);
    WalkThrough(pg, p, x, Onward(x), p + Size(x) + 9);
  }

  /** A linked fragment leads on to wherever its link leads. */
  lemma {:induction false} WalkThrough(pg: Cells, p: nat, re: Re, link: nat, q: nat)
    requires Wf(re) && |pg| <= MAX_PROGRAM && Has(pg, p, Emit(re, link)) && 0 < link <= MAX_PROGRAM
    requires p + TailAt(re) + link <= q && Walk(pg, p + TailAt(re) + link, q)
    ensures Walk(pg, p, q)
    decreases re, 1
  {
    hide Has;
    hide Emit;
    hide LinkAt;
    WalkFragment(pg, p, re, link);
    TailLink(pg, p, re, link);
    TailOp(pg, p, re, link);
    WalkOn(pg, p, p + TailAt(re), q);
  }

  lemma TailOp(pg: Cells, p: nat, re: Re, link: nat)
    requires Has(pg, p, Emit(re, link))
    ensures p + TailAt(re) + 2 < |pg| && pg[p + TailAt(re)] != BACK
  {
    var code, t := Emit(re, link), TailAt(re);
    assert Cell(pg, p, code, t);
    TailOpCode(re, link);
  }

  lemma TailOpCode(re: Re, link: nat)
    ensures Emit(re, link)[TailAt(re)] != BACK
  {
  }

  // ----- chains that end in an unset link -----

  /** Following links from p ends at t, whose link is not set. */
  ghost predicate Loose(pg: Cells, p: nat, t: nat) {
    p <= t && t + 2 < |pg| && Walk(pg, p, t) && LinkAt(pg, t) == 0
  }

  lemma LooseNode(pg: Cells, p: nat, op: int)
    requires Has(pg, p, Node(op, 0))
    ensures Loose(pg, p, p) && pg[p] == op
  {
    HasNode(pg, p, op, 0);
  }

  lemma LooseVia(pg: Cells, p: nat, op: int, link: nat, t: nat)
    requires Has(pg, p, Node(op, link)) && 0 < link <= MAX_PROGRAM && op != BACK
    requires Loose(pg, p + link, t)
    ensures Loose(pg, p, t)
  {
    WalkNode(pg, p, op, link, t);
  }

  lemma LooseFragment(pg: Cells, p: nat, re: Re)
    requires Wf(re) && |pg| <= MAX_PROGRAM && Has(pg, p, Emit(re, 0))
    ensures Loose(pg, p, p + TailAt(re)) && pg[p + TailAt(re)] != BACK
  {
    hide Walk;
    hide Emit;
    WalkFragment(pg, p, re, 0);
    TailLink(pg, p, re, 0);
    TailOp(pg, p, re, 0);
  }

  lemma LooseThrough(pg: Cells, p: nat, re: Re, link: nat, t: nat)
    requires Wf(re) && |pg| <= MAX_PROGRAM && Has(pg, p, Emit(re, link)) && 0 < link <= MAX_PROGRAM
    requires Loose(pg, p + TailAt(re) + link, t)
    ensures Loose(pg, p, t)
  {
    WalkThrough(pg, p, re, link, t);
  }

  /** Setting a link inside one part of some code. */
  lemma PatchPart(c1: Cells, c2: Cells, c3: Cells, n: nat, v: nat)
    requires n + 2 < |c2|
    ensures SetLink(c1 + c2 + c3, |c1| + n, v) == c1 + SetLink(c2, n, v) + c3
  {
  }

  /** Links are relative: code that is placed somewhere links as it did on its own. */
  lemma {:induction false} WalkMoved(pg: Cells, at: nat, code: Cells, p: nat, q: nat)
    requires Has(pg, at, code) && Walk(code, p, q) && q + 2 < |code|
    ensures Walk(pg, at + p, at + q)
    decreases q - p
  {
    if p < q {
      NodeMoved(pg, at, code, p);
      WalkInside(code, p + LinkAt(code, p), q);
      WalkMoved(pg, at, code, p + LinkAt(code, p), q);
    }
  }

  lemma NodeMoved(pg: Cells, at: nat, code: Cells, p: nat)
    requires Has(pg, at, code) && p + 2 < |code|
    ensures at + p + 2 < |pg| && pg[at + p] == code[p] && LinkAt(pg, at + p) == LinkAt(code, p)
  {
    assert Cell(pg, at, code, p) && Cell(pg, at, code, p + 1) && Cell(pg, at, code, p + 2);
  }

  lemma LooseMoved(pg: Cells, at: nat, code: Cells, p: nat, t: nat)
    requires Has(pg, at, code) && Loose(code, p, t)
    ensures Loose(pg, at + p, at + t) && pg[at + t] == code[t]
  {
    WalkMoved(pg, at, code, p, t);
    NodeMoved(pg, at, code, t);
  }

  lemma {:induction false} LooseBranch(pg: Cells, p: nat, b: Branch)
    requires b.Cons? && WfB(b) && |pg| <= MAX_PROGRAM && Has(pg, p, EmitB(b, 0))
    ensures Loose(pg, p, p + TailAtB(b)) && pg[p + TailAtB(b)] != BACK
    decreases b
  {
    hide Emit;
    hide Has;
    hide Loose;
    if b.tail.Nil? {
      LooseFragment(pg, p, b.head);
    } else {
      HasSplit(pg, p, Emit(b.head, Onward(b.head)), EmitB(b.tail, 0));
      HasBounds(pg, p, Emit(b.head, Onward(b.head)));
      LooseBranch(pg, p + Size(b.head), b.tail);
      LooseThrough(pg, p, b.head, Onward(b.head), p + TailAtB(b));
    }
  }
}
