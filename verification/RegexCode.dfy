/**
 The compiled form of a pattern: the cells that the compiler leaves in the
 program for each tree. A node is an opcode cell and two cells of next link;
 an operand follows it. Each fragment has one node whose link leads out of
 the fragment, TailAt cells from its start; the layout functions take the value
 stored there, with 0 for a link that is not set yet.
 */
module RegexCode {
  import opened RegexSyntax

  const END := 0
  const BOL := 1
  const EOL := 2
  const ANY := 3
  const ANYOF := 4
  const ANYBUT := 5
  const BRANCH := 6
  const BACK := 7
  const EXACTLY := 8
  const NOTHING := 9
  const STAR := 10
  const PLUS := 11
  const SUB_OPEN := 20
  const SUB_CLOSE := 30

  const MAGIC := 123

  /** Programs of this size or more are refused, so every link fits in 15 bits. */
  const MAX_PROGRAM := 0x7fff

  type Cells = seq<int>

  function Hi(link: nat): int {
    (link / 256) % 128
  }

  function Lo(link: nat): int {
    link % 256
  }

  /** A node: opcode and next link, high-order part first. */
  function Node(op: int, link: nat): (r: Cells)
    ensures |r| == 3
  {
    [op, Hi(link), Lo(link)]
  }

  /** The link stored in the node at p, as the machine decodes it. */
  function LinkAt(prog: Cells, p: int): (link: nat)
    requires 0 <= p && p + 2 < |prog|
    ensures link <= MAX_PROGRAM
  {
    (prog[p + 1] % 128) * 256 + prog[p + 2] % 256
  }

  const NULL := -1

  /** The node a node leads to, or NULL if its link is not set. */
  function RegNext(prog: Cells, p: int): int
    requires 0 <= p && p + 2 < |prog|
  {
    var offset := LinkAt(prog, p);
    if offset == 0 then NULL else if prog[p] == BACK then p - offset else p + offset
  }

  /** Below the size limit every stored link decodes to the value encoded. */
  lemma LinkRoundTrip(prog: Cells, p: int, op: int, link: nat)
    requires 0 <= p && p + 2 < |prog|
    requires prog[p..p + 3] == Node(op, link)
    ensures LinkAt(prog, p) == link <==> link <= MAX_PROGRAM
  {
    assert prog[p..p + 3][0] == prog[p] && prog[p..p + 3][1] == prog[p + 1] && prog[p..p + 3][2] == prog[p + 2];
    assert link == 256 * (link / 256) + link % 256;
  }

  // ----- layout -----

  function Size(re: Re): (n: nat)
    ensures n >= 3
  {
    match re
    case AnyOf(cs) => 4 + |cs|
    case AnyBut(cs) => 4 + |cs|
    case Lit(t) => 4 + |t|
    case Group(_, alts) => 6 + SizeA(alts)
    case Star(x) => if Simple(x) then 3 + Size(x) else 12 + Size(x)
    case Plus(x) => if Simple(x) then 3 + Size(x) else 12 + Size(x)
    case Opt(x) => 9 + Size(x)
    case _ => 3
  }

  function SizeB(b: Branch): nat {
    match b
    case Nil => 0
    case Cons(p, t) => Size(p) + SizeB(t)
  }

  function SizeA(a: Alts): nat {
    match a
    case ANil => 0
    case ACons(b, t) => 3 + SizeB(b) + SizeA(t)
  }

  /** Where in a fragment the node is whose link leads out of it. */
  function TailAt(re: Re): (n: nat)
    ensures n + 3 <= Size(re)
  {
    match re
    case Group(_, alts) => 3 + SizeA(alts)
    case Star(x) => if Simple(x) then 0 else 9 + Size(x)
    case Plus(x) => if Simple(x) then 0 else 9 + Size(x)
    case Opt(x) => 6 + Size(x)
    case _ => 0
  }

  function TailAtB(b: Branch): (n: nat)
    requires b.Cons?
    ensures n + 3 <= SizeB(b)
  {
    if b.tail.Nil? then TailAt(b.head) else Size(b.head) + TailAtB(b.tail)
  }

  /** The link that makes a fragment continue right behind itself. */
  function Onward(re: Re): (n: nat)
    ensures n >= 3
  {
    Size(re) - TailAt(re)
  }

  function OnwardB(b: Branch): (n: nat)
    requires b.Cons?
    ensures n >= 3
  {
    SizeB(b) - TailAtB(b)
  }

  /** A node with a string operand. */
  function StringCode(op: int, t: Text, link: nat): (r: Cells)
    ensures |r| == 4 + |t|
  {
    Node(op, link) + t + [NUL]
  }

  function GroupCode(n: nat, body: Cells, link: nat): (r: Cells)
    ensures |r| == 6 + |body|
  {
    Node(SUB_OPEN + n, 3) + body + Node(SUB_CLOSE + n, link)
  }

  /** x* as (x&|), where & means the whole again. */
  function StarCode(body: Cells, link: nat): (r: Cells)
    ensures |r| == 12 + |body|
  {
    Node(BRANCH, |body| + 6) + body + Node(BACK, |body| + 3) + Node(BRANCH, 3) + Node(NOTHING, link)
  }

  /** x+ as x(&|). */
  function PlusCode(body: Cells, link: nat): (r: Cells)
    ensures |r| == 12 + |body|
  {
    body + Node(BRANCH, 6) + Node(BACK, |body| + 3) + Node(BRANCH, 3) + Node(NOTHING, link)
  }

  /** x? as (x|). */
  function OptCode(body: Cells, link: nat): (r: Cells)
    ensures |r| == 9 + |body|
  {
    Node(BRANCH, |body| + 3) + body + Node(BRANCH, 3) + Node(NOTHING, link)
  }

  function Emit(re: Re, link: nat): (r: Cells)
    ensures |r| == Size(re)
  {
    match re
    case Nothing => Node(NOTHING, link)
    case Bol => Node(BOL, link)
    case Eol => Node(EOL, link)
    case Any => Node(ANY, link)
    case AnyOf(cs) => StringCode(ANYOF, cs, link)
    case AnyBut(cs) => StringCode(ANYBUT, cs, link)
    case Lit(t) => StringCode(EXACTLY, t, link)
    case Group(n, alts) => GroupCode(n, EmitA(alts, 0), link)
    case Star(x) =>
      if Simple(x) then Node(STAR, link) + Emit(x, 0) else StarCode(Emit(x, Onward(x)), link)
    case Plus(x) =>
      if Simple(x) then Node(PLUS, link) + Emit(x, 0) else PlusCode(Emit(x, Onward(x)), link)
    case Opt(x) => OptCode(Emit(x, Onward(x) + 3), link)
  }

  function EmitB(b: Branch, link: nat): (r: Cells)
    ensures |r| == SizeB(b)
  {
    match b
    case Nil => []
    case Cons(p, t) => if t.Nil? then Emit(p, link) else Emit(p, Onward(p)) + EmitB(t, link)
  }

  /** The tail link of an alternative with rest cells of the choice behind it. */
  function TailLinkOf(b: Branch, rest: nat, d: int): nat {
    if b.Nil? || d < 0 then 0 else OnwardB(b) + rest + d
  }

  /**
   A choice whose alternatives all continue d cells behind its end, or whose
   alternatives are not linked to anything yet if d is negative.
   */
  function EmitA(a: Alts, d: int): (r: Cells)
    ensures |r| == SizeA(a)
  {
    match a
    case ANil => []
    case ACons(b, t) => Node(BRANCH, 3 + SizeB(b)) + EmitB(b, TailLinkOf(b, SizeA(t), d)) + EmitA(t, d)
  }

  /** The whole program for a pattern. */
  function Program(alts: Alts): (r: Cells)
    ensures |r| == SizeA(alts) + 4
  {
    [MAGIC] + EmitA(alts, 0) + Node(END, 0)
  }

  // ----- adding at the end -----

  lemma SizeSnoc(b: Branch, p: Re)
    ensures SizeB(Snoc(b, p)) == SizeB(b) + Size(p)
    ensures TailAtB(Snoc(b, p)) == SizeB(b) + TailAt(p)
  {
  }

  lemma Regroup(c1: Cells, c2: Cells, c3: Cells)
    ensures c1 + (c2 + c3) == (c1 + c2) + c3
  {
  }

  lemma {:induction false} EmitSnoc(b: Branch, p: Re, link: nat)
    ensures EmitB(Snoc(b, p), link) == (if b.Nil? then [] else EmitB(b, OnwardB(b))) + Emit(p, link)
    decreases b
  {
    hide Emit;
    if b.Nil? {
      assert EmitB(Snoc(b, p), link) == [] + Emit(p, link);
    } else {
      EmitSnoc(b.tail, p, link);
      if b.tail.Cons? {
        assert OnwardB(b.tail) == OnwardB(b);
        Regroup(Emit(b.head, Onward(b.head)), EmitB(b.tail, OnwardB(b)), Emit(p, link));
      }
    }
  }

  lemma SizeSnocA(a: Alts, b: Branch)
    ensures SizeA(SnocA(a, b)) == SizeA(a) + 3 + SizeB(b)
  {
  }

  lemma {:induction false} EmitSnocA(a: Alts, b: Branch, d: int)
    ensures EmitA(SnocA(a, b), d) ==
            EmitA(a, if d < 0 then d else d + 3 + SizeB(b))
            + (Node(BRANCH, 3 + SizeB(b)) + EmitB(b, TailLinkOf(b, 0, d)))
    decreases a
  {
    hide EmitB;
    hide Node;
    hide SizeB;
    if a.ACons? {
      EmitSnocA(a.rest, b, d);
      SizeSnocA(a.rest, b);
      var d' := if d < 0 then d else d + 3 + SizeB(b);
      var c1 := Node(BRANCH, 3 + SizeB(a.first)) + EmitB(a.first, TailLinkOf(a.first, SizeA(a.rest), d'));
      var c3 := Node(BRANCH, 3 + SizeB(b)) + EmitB(b, TailLinkOf(b, 0, d));
      assert TailLinkOf(a.first, SizeA(a.rest), d') == TailLinkOf(a.first, SizeA(SnocA(a.rest, b)), d);
      Regroup(c1, EmitA(a.rest, d'), c3);
    } else {
      var c3 := Node(BRANCH, 3 + SizeB(b)) + EmitB(b, TailLinkOf(b, 0, d));
      assert SnocA(a, b).rest == ANil;
      assert c3 + [] == c3 == [] + c3;
    }
  }

  // ----- reading on only adds cells -----

  lemma {:induction false} BranchGrows(pat: Text, pos: nat, npar: nat, acc: Branch)
    requires pos <= |pat| && 0 < npar && WfB(acc) && ParseBranch(pat, pos, npar, acc).Ok?
    ensures SizeB(acc) <= SizeB(ParseBranch(pat, pos, npar, acc).v)
    decreases |pat| - pos
  {
    if !IsStop(Peek(pat, pos)) {
      var r := ParsePiece(pat, pos, npar);
      SnocWf(acc, r.v);
      SizeSnoc(acc, r.v);
      BranchGrows(pat, r.pos, r.npar, Snoc(acc, r.v));
    }
  }

  lemma PieceFits(pat: Text, pos: nat, npar: nat, acc: Branch)
    requires pos <= |pat| && 0 < npar && WfB(acc) && ParseBranch(pat, pos, npar, acc).Ok?
    requires !IsStop(Peek(pat, pos))
    ensures ParsePiece(pat, pos, npar).Ok?
    ensures SizeB(acc) + Size(ParsePiece(pat, pos, npar).v) <= SizeB(ParseBranch(pat, pos, npar, acc).v)
  {
    var r := ParsePiece(pat, pos, npar);
    SnocWf(acc, r.v);
    SizeSnoc(acc, r.v);
    BranchGrows(pat, r.pos, r.npar, Snoc(acc, r.v));
  }

  lemma {:induction false} AltsGrow(pat: Text, pos: nat, npar: nat, acc: Alts)
    requires pos <= |pat| && 0 < npar && WfA(acc) && ParseAlts(pat, pos, npar, acc).Ok?
    ensures ParseBranch(pat, pos, npar, Nil).Ok?
    ensures SizeA(acc) + 3 + SizeB(ParseBranch(pat, pos, npar, Nil).v) <= SizeA(ParseAlts(pat, pos, npar, acc).v)
    decreases |pat| - pos
  {
    var r := ParseBranch(pat, pos, npar, Nil);
    SnocAWf(acc, r.v);
    SizeSnocA(acc, r.v);
    if Peek(pat, r.pos) == BAR {
      AltsGrow(pat, r.pos + 1, r.npar, SnocA(acc, r.v));
    }
  }
}
