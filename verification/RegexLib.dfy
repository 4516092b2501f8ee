/**
 Compiling and executing whole patterns. A pattern is compiled by two passes of
 the same compiler, and three facts are dug out of the program that let the
 matcher skip work; executing a compiled pattern is proved to succeed exactly on
 the subjects in which the parsed pattern matches somewhere.
 */
module RegexLib {
  import opened RegexSyntax
  import opened RegexCode
  import opened RegexMeaning
  import opened RegexLinks
  import opened RegexLoops
  import opened RegexMachine
  import opened RegexCompile
  import opened RegexWays
  import opened RegexFirst
  import opened RegexSpelling
  import opened RegexCaptures

  // ----- the literals that every match needs -----

  /** The literals on the chain of links through a tree. */
  function ReLits(re: Re): seq<Text> {
    match re
    case Lit(t) => [t]
    case Plus(x) => if Simple(x) then [] else ReLits(x)
    case _ => []
  }

  function BranchLits(b: Branch): seq<Text> {
    match b
    case Nil => []
    case Cons(p, t) => ReLits(p) + BranchLits(t)
  }

  lemma OccursEarlier(t: Text, s: Text, i: nat)
    requires Occurs(t, s, i)
    ensures Occurs(t, s, 0)
  {
  }

  lemma {:induction false} ReNeeds(re: Re, s: Text, i: nat, j: nat, t: Text)
    requires i <= j <= |s| && Matches(AsCoded, re, s, i, j) && t in ReLits(re)
    ensures Occurs(t, s, 0)
    decreases re
  {
    if re.Plus? {
      var m: nat :| i <= m <= j && Matches(AsCoded, re.x, s, i, m) && Many(AsCoded, re.x, s, m, j);
      ReNeeds(re.x, s, i, m, t);
    } else {
      OccursEarlier(t, s, i);
    }
  }

  /** What a match of an alternative needs in the subject. */
  lemma {:induction false} BranchNeeds(b: Branch, s: Text, i: nat, j: nat, t: Text)
    requires i <= j <= |s| && MatchesB(AsCoded, b, s, i, j) && t in BranchLits(b)
    ensures Occurs(t, s, 0)
    decreases b
  {
    var m: nat :| i <= m <= j && Matches(AsCoded, b.head, s, i, m) && MatchesB(AsCoded, b.tail, s, m, j);
    if t in ReLits(b.head) {
      ReNeeds(b.head, s, i, m, t);
    } else {
      BranchNeeds(b.tail, s, m, j, t);
    }
  }

  /** The first character of a tree that starts with a literal. */
  lemma {:induction false} ReStart(re: Re, s: Text, i: nat, j: nat)
    requires i <= j <= |s| && Matches(AsCoded, re, s, i, j) && OpOfRe(re) == EXACTLY
    ensures |ReLits(re)| > 0 && |ReLits(re)[0]| > 0 && i < |s| && s[i] == ReLits(re)[0][0]
    decreases re
  {
    if re.Plus? {
      var m: nat :| i <= m <= j && Matches(AsCoded, re.x, s, i, m) && Many(AsCoded, re.x, s, m, j);
      ReStart(re.x, s, i, m);
    }
  }

  // ----- the chain of links of the only alternative -----

  /** Following links from p to the end passes exactly these literals. */
  ghost predicate LitChain(prog: Cells, p: nat, ls: seq<Text>)
    decreases |prog| - p
  {
    && p + 2 < |prog|
    && if prog[p] == END then ls == [] && LinkAt(prog, p) == 0
       else
         && prog[p] != BACK && LinkAt(prog, p) > 0
         && if prog[p] == EXACTLY then
              && ls != [] && Has(prog, p + 3, ls[0] + [NUL])
              && LitChain(prog, p + LinkAt(prog, p), ls[1..])
            else LitChain(prog, p + LinkAt(prog, p), ls)
  }

  lemma LitSkip(prog: Cells, p: nat, op: int, link: nat, ls: seq<Text>)
    requires Has(prog, p, Node(op, link)) && 0 < link <= MAX_PROGRAM
    requires op != END && op != BACK && op != EXACTLY
    requires LitChain(prog, p + link, ls)
    ensures LitChain(prog, p, ls)
  {
    HasNode(prog, p, op, link);
  }

  lemma LitTake(prog: Cells, p: nat, t: Text, link: nat, ls: seq<Text>)
    requires Has(prog, p, StringCode(EXACTLY, t, link)) && 0 < link <= MAX_PROGRAM
    requires LitChain(prog, p + link, ls)
    ensures LitChain(prog, p, [t] + ls)
  {
    HasString(prog, p, EXACTLY, t, link);
    assert ([t] + ls)[1..] == ls;
  }

  lemma {:induction false} LitSkipChoice(prog: Cells, p: nat, a: Alts, d: int, ls: seq<Text>)
    requires WfA(a) && |prog| <= MAX_PROGRAM && Has(prog, p, EmitA(a, d))
    requires LitChain(prog, p + SizeA(a), ls)
    ensures LitChain(prog, p, ls)
    decreases a
  {
    hide Has;
    hide LitChain;
    hide EmitA;
    hide EmitB;
    hide Node;
    hide SizeB;
    hide WfA;
    hide TailLinkOf;
    if a.ACons? {
      WfFirst(a);
      SizeFirst(a);
      ChoiceParts(prog, p, a, d);
      HasBounds(prog, p, EmitA(a, d));
      LitSkipChoice(prog, p + 3 + SizeB(a.first), a.rest, d, ls);
      LitSkip(prog, p, BRANCH, 3 + SizeB(a.first), ls);
    }
  }

  lemma WfFirst(a: Alts)
    requires a.ACons? && WfA(a)
    ensures a.first.Cons? && WfB(a.first) && WfA(a.rest)
  {
  }

  lemma SizeFirst(a: Alts)
    requires a.ACons?
    ensures SizeA(a) == 3 + SizeB(a.first) + SizeA(a.rest)
  {
  }

  lemma {:induction false} LitChainRe(prog: Cells, p: nat, re: Re, link: nat, ls: seq<Text>)
    requires Wf(re) && |prog| <= MAX_PROGRAM && Has(prog, p, Emit(re, link)) && 0 < link <= MAX_PROGRAM
    requires LitChain(prog, p + TailAt(re) + link, ls)
    ensures LitChain(prog, p, ReLits(re) + ls)
    decreases re
  {
    hide Has;
    hide LitChain;
    hide Node;
    hide StringCode;
    hide GroupCode;
    hide StarCode;
    hide PlusCode;
    hide OptCode;
    hide EmitA;
    hide EmitB;
    assert [] + ls == ls;
    match re
    case Lit(t) => LitTake(prog, p, t, link, ls);
    case Group(n, alts) => LitChainGroup(prog, p, n, alts, link, ls);
    case Star(x) =>
      if Simple(x) {
        LitChainSimple(prog, p, STAR, x, link, ls);
      } else {
        LitChainStar(prog, p, Emit(x, Onward(x)), link, ls);
      }
    case Plus(x) =>
      if Simple(x) {
        LitChainSimple(prog, p, PLUS, x, link, ls);
      } else {
        var body := Emit(x, Onward(x));
        LitChainPlus(prog, p, body, link, ls);
        PlusParts(prog, p, body, link);
        HasBounds(prog, p, body);
        LitChainRe(prog, p, x, Onward(x), ls);
      }
    case Opt(x) => LitChainOpt(prog, p, Emit(x, Onward(x) + 3), link, ls);
    case _ => LitChainLeaf(prog, p, re, link, ls);
  }

  lemma LitChainSimple(prog: Cells, p: nat, op: int, x: Re, link: nat, ls: seq<Text>)
    requires |prog| <= MAX_PROGRAM && Has(prog, p, Node(op, link) + Emit(x, 0)) && 0 < link <= MAX_PROGRAM
    requires op in {STAR, PLUS} && LitChain(prog, p + link, ls)
    ensures LitChain(prog, p, ls)
  {
    hide Has;
    hide LitChain;
    hide Node;
    SimpleParts(prog, p, op, x, link);
    LitSkip(prog, p, op, link, ls);
  }

  lemma LitChainLeaf(prog: Cells, p: nat, re: Re, link: nat, ls: seq<Text>)
    requires IsLeaf(re) && !re.Lit? && Has(prog, p, Emit(re, link)) && 0 < link <= MAX_PROGRAM
    requires LitChain(prog, p + link, ls)
    ensures LitChain(prog, p, ls)
  {
    hide Has;
    hide LinkAt;
    TailLink(prog, p, re, link);
    EmitAt(prog, p, re, link);
    HasBounds(prog, p, Emit(re, link));
  }

  lemma LitChainGroup(prog: Cells, p: nat, n: nat, alts: Alts, link: nat, ls: seq<Text>)
    requires WfA(alts) && |prog| <= MAX_PROGRAM && Has(prog, p, GroupCode(n, EmitA(alts, 0), link))
             && 0 < link <= MAX_PROGRAM
    requires LitChain(prog, p + 3 + SizeA(alts) + link, ls)
    ensures LitChain(prog, p, ls)
  {
    hide Has;
    hide LitChain;
    hide EmitA;
    GroupParts(prog, p, n, EmitA(alts, 0), link);
    LitSkip(prog, p + 3 + SizeA(alts), SUB_CLOSE + n, link, ls);
    LitSkipChoice(prog, p + 3, alts, 0, ls);
    LitSkip(prog, p, SUB_OPEN + n, 3, ls);
  }

  lemma LitChainStar(prog: Cells, p: nat, body: Cells, link: nat, ls: seq<Text>)
    requires |prog| <= MAX_PROGRAM && Has(prog, p, StarCode(body, link)) && 0 < link <= MAX_PROGRAM
    requires LitChain(prog, p + 9 + |body| + link, ls)
    ensures LitChain(prog, p, ls)
  {
    hide Has;
    hide LitChain;
    HasBounds(prog, p, StarCode(body, link));
    StarParts(prog, p, body, link);
    LitSkip(prog, p + 9 + |body|, NOTHING, link, ls);
    LitSkip(prog, p + 6 + |body|, BRANCH, 3, ls);
    LitSkip(prog, p, BRANCH, |body| + 6, ls);
  }

  lemma LitChainPlus(prog: Cells, p: nat, body: Cells, link: nat, ls: seq<Text>)
    requires |prog| <= MAX_PROGRAM && Has(prog, p, PlusCode(body, link)) && 0 < link <= MAX_PROGRAM
    requires LitChain(prog, p + 9 + |body| + link, ls)
    ensures LitChain(prog, p + |body|, ls)
  {
    hide Has;
    hide LitChain;
    HasBounds(prog, p, PlusCode(body, link));
    PlusParts(prog, p, body, link);
    LitSkip(prog, p + 9 + |body|, NOTHING, link, ls);
    LitSkip(prog, p + 6 + |body|, BRANCH, 3, ls);
    LitSkip(prog, p + |body|, BRANCH, 6, ls);
  }

  lemma LitChainOpt(prog: Cells, p: nat, body: Cells, link: nat, ls: seq<Text>)
    requires |prog| <= MAX_PROGRAM && Has(prog, p, OptCode(body, link)) && 0 < link <= MAX_PROGRAM
    requires LitChain(prog, p + 6 + |body| + link, ls)
    ensures LitChain(prog, p, ls)
  {
    hide Has;
    hide LitChain;
    HasBounds(prog, p, OptCode(body, link));
    OptParts(prog, p, body, link);
    LitSkip(prog, p + 6 + |body|, NOTHING, link, ls);
    LitSkip(prog, p + 3 + |body|, BRANCH, 3, ls);
    LitSkip(prog, p, BRANCH, |body| + 3, ls);
  }

  lemma {:induction false} LitChainB(prog: Cells, p: nat, b: Branch, link: nat, ls: seq<Text>)
    requires b.Cons? && WfB(b) && |prog| <= MAX_PROGRAM && Has(prog, p, EmitB(b, link)) && 0 < link <= MAX_PROGRAM
    requires LitChain(prog, p + TailAtB(b) + link, ls)
    ensures LitChain(prog, p, BranchLits(b) + ls)
    decreases b
  {
    hide Has;
    hide LitChain;
    hide Emit;
    hide Wf;
    if b.tail.Nil? {
      assert BranchLits(b) == ReLits(b.head);
      LitChainRe(prog, p, b.head, link, ls);
    } else {
      HasSplit(prog, p, Emit(b.head, Onward(b.head)), EmitB(b.tail, link));
      HasBounds(prog, p, Emit(b.head, Onward(b.head)));
      LitChainB(prog, p + Size(b.head), b.tail, link, ls);
      LitChainRe(prog, p, b.head, Onward(b.head), BranchLits(b.tail) + ls);
      assert ReLits(b.head) + (BranchLits(b.tail) + ls) == BranchLits(b) + ls;
    }
  }

  // ----- the program as a whole -----

  /** The program of a pattern is well linked: it is the code of its choice, and then the end. */
  lemma ProgramAt(alts: Alts)
    requires |Program(alts)| <= MAX_PROGRAM
    ensures At(Program(alts), 1, Push(Choice(alts), Done))
  {
    hide EmitA;
    hide Has;
    hide Program;
    hide At;
    hide SizeA;
    hide Node;
    hide LinkAt;
    var prog := Program(alts);
    ProgramParts(alts);
    HasNode(prog, 1 + SizeA(alts), END, 0);
    AtDone(prog, 1 + SizeA(alts));
    AtChoice(prog, 1, alts, Done);
  }

  /** With a single alternative, the links from its first piece pass its literals and end. */
  lemma ProgramLits(b: Branch)
    requires b.Cons? && WfB(b) && |Program(ACons(b, ANil))| <= MAX_PROGRAM
    ensures LitChain(Program(ACons(b, ANil)), 4, BranchLits(b))
  {
    hide EmitA;
    hide EmitB;
    hide Has;
    hide Program;
    var alts := ACons(b, ANil);
    var prog := Program(alts);
    SizeFirst(alts);
    ProgramParts(alts);
    HasNode(prog, 1 + SizeA(alts), END, 0);
    ChoiceParts(prog, 1, alts, 0);
    assert BranchLits(b) + [] == BranchLits(b);
    LitChainB(prog, 4, b, OnwardB(b), []);
  }

  /** Behind the first alternative is the end exactly if it is the only one. */
  lemma ProgramSecond(alts: Alts)
    requires alts.ACons? && WfA(alts) && |Program(alts)| <= MAX_PROGRAM
    ensures var prog := Program(alts); var next := 4 + SizeB(alts.first);
            && next + 2 < |prog| && RegNext(prog, 1) == next && (prog[next] == END <==> alts.rest.ANil?)
            && Has(prog, 4, EmitB(alts.first, TailLinkOf(alts.first, SizeA(alts.rest), 0)))
  {
    hide EmitA;
    hide EmitB;
    hide Has;
    hide Program;
    hide LinkAt;
    hide Wf;
    hide TailLinkOf;
    var prog, b, next := Program(alts), alts.first, 4 + SizeB(alts.first);
    WfFirst(alts);
    SizeFirst(alts);
    ProgramParts(alts);
    HasNode(prog, 1 + SizeA(alts), END, 0);
    ChoiceParts(prog, 1, alts, 0);
    HasNode(prog, 1, BRANCH, 3 + SizeB(b));
    if alts.rest.ACons? {
      WfFirst(alts.rest);
      SizeFirst(alts.rest);
      ChoiceParts(prog, next, alts.rest, 0);
      HasBounds(prog, next, EmitA(alts.rest, 0));
      HasNode(prog, next, BRANCH, 3 + SizeB(alts.rest.first));
    }
  }

  /** The opcode of the first piece tells what the first alternative starts with. */
  lemma ProgramHead(alts: Alts)
    requires alts.ACons? && WfA(alts) && |Program(alts)| <= MAX_PROGRAM
    ensures var prog := Program(alts); var next := 4 + SizeB(alts.first);
            && 7 < |prog| && next + 2 < |prog| && RegNext(prog, 1) == next
            && (prog[next] == END <==> alts.rest.ANil?)
            && prog[4] == OpOfRe(alts.first.head)
            && (prog[4] == EXACTLY ==>
                  && |ReLits(alts.first.head)| > 0 && |ReLits(alts.first.head)[0]| > 0
                  && prog[7] == ReLits(alts.first.head)[0][0])
  {
    hide Program;
    hide Has;
    hide EmitB;
    hide RegNext;
    hide ReLits;
    hide OpOfRe;
    hide TailLinkOf;
    ProgramSecond(alts);
    BranchHead(Program(alts), 4, alts.first, TailLinkOf(alts.first, SizeA(alts.rest), 0));
  }

  lemma BranchHead(prog: Cells, p: nat, b: Branch, link: nat)
    requires b.Cons? && WfB(b) && Has(prog, p, EmitB(b, link))
    ensures p + 2 < |prog| && prog[p] == OpOfRe(b.head)
    ensures prog[p] == EXACTLY ==>
              && |ReLits(b.head)| > 0 && |ReLits(b.head)[0]| > 0
              && p + 3 < |prog| && prog[p + 3] == ReLits(b.head)[0][0]
  {
    hide Emit;
    var l := if b.tail.Nil? then link else Onward(b.head);
    if b.tail.Cons? {
      HasSplit(prog, p, Emit(b.head, l), EmitB(b.tail, link));
    }
    EmitAt(prog, p, b.head, l);
    if prog[p] == EXACTLY {
      ReHead(prog, p, b.head, l);
    }
  }

  lemma {:induction false} ReHead(prog: Cells, p: nat, re: Re, link: nat)
    requires Wf(re) && Has(prog, p, Emit(re, link)) && OpOfRe(re) == EXACTLY
    ensures |ReLits(re)| > 0 && |ReLits(re)[0]| > 0 && p + 3 < |prog| && prog[p + 3] == ReLits(re)[0][0]
    decreases re
  {
    if re.Plus? {
      PlusParts(prog, p, Emit(re.x, Onward(re.x)), link);
      ReHead(prog, p, re.x, Onward(re.x));
    } else {
      var code := Emit(re, link);
      assert code[3] == re.text[0];
      assert Cell(prog, p, code, 3);
    }
  }

  /** The string at p is the last of the longest of these literals. */
  ghost predicate MustIs(prog: Cells, p: int, len: nat, ls: seq<Text>) {
    exists k :: 0 <= k < |ls| && IsMust(prog, p, len, ls, k)
  }

  ghost predicate IsMust(prog: Cells, p: int, len: nat, ls: seq<Text>, k: nat)
    requires k < |ls|
  {
    && len == |ls[k]| && Has(prog, p, ls[k] + [NUL])
    && (forall j :: 0 <= j < |ls| ==> |ls[j]| <= len)
    && (forall j :: k < j < |ls| ==> |ls[j]| < len)
  }

  /** The longest literal on the chain from start; of equally long ones the last. */
  method FindMust(prog: Cells, start: nat, ghost ls: seq<Text>) returns (longest: int, len: nat)
    requires LitChain(prog, start, ls)
    ensures if ls == [] then longest == NULL && len == 0 else MustIs(prog, longest, len, ls)
  {
    longest, len := NULL, 0;
    var scan: int := start;
    ghost var k := 0;
    while scan != NULL
      invariant 0 <= k <= |ls|
      invariant if scan == NULL then k == |ls| else scan >= 0 && LitChain(prog, scan, ls[k..])
      invariant if k == 0 then longest == NULL && len == 0 else MustIs(prog, longest, len, ls[..k])
      decreases if scan == NULL then -1 else |prog| - scan
    {
      if prog[scan] == EXACTLY {
        var t := StrLen(prog, scan + 3, ls[k]);
        MustNext(prog, longest, len, ls, k, scan + 3);
        if t >= len {
          longest, len := scan + 3, t;
        }
        assert ls[k..][1..] == ls[k + 1..];
        k := k + 1;
      }
      scan := RegNext(prog, scan);
    }
    assert ls[..k] == ls;
  }

  lemma MustNext(prog: Cells, p: int, len: nat, ls: seq<Text>, k: nat, q: int)
    requires k < |ls| && Has(prog, q, ls[k] + [NUL])
    requires if k == 0 then len == 0 else MustIs(prog, p, len, ls[..k])
    ensures if |ls[k]| >= len then MustIs(prog, q, |ls[k]|, ls[..k + 1]) else MustIs(prog, p, len, ls[..k + 1])
  {
    var before, now := ls[..k], ls[..k + 1];
    assert forall j :: 0 <= j < k ==> now[j] == before[j];
    if |ls[k]| >= len {
      assert IsMust(prog, q, |ls[k]|, now, k);
    } else {
      var m :| 0 <= m < |before| && IsMust(prog, p, len, before, m);
      assert IsMust(prog, p, len, now, m);
    }
  }

  /** A compiled pattern. */
  class Regexp {
    const program: Cells
    const regstart: int
    const reganch: bool
    const regmust: int
    const regmlen: nat
    const startp: array<int>
    const endp: array<int>

    /** The object is the compiled form of these alternatives. */
    ghost predicate Valid(alts: Alts) {
      && alts.ACons? && WfA(alts)
      && program == Program(alts) && |program| < MAX_PROGRAM
      && startp != endp && startp.Length == endp.Length == NSUBEXP
      && regstart == StartOf(alts)
      && reganch == AnchorOf(alts)
      && if alts.rest.ANil? && SpStartA(alts) && BranchLits(alts.first) != []
         then MustIs(program, regmust, regmlen, BranchLits(alts.first))
         else regmust == NULL && regmlen == 0
    }

    constructor (program: Cells, regstart: int, reganch: bool, regmust: int, regmlen: nat)
      ensures this.program == program && this.regstart == regstart && this.reganch == reganch
      ensures this.regmust == regmust && this.regmlen == regmlen
      ensures fresh(startp) && fresh(endp) && startp != endp && startp.Length == endp.Length == NSUBEXP
    {
      this.program, this.regstart, this.reganch := program, regstart, reganch;
      this.regmust, this.regmlen := regmust, regmlen;
      startp := new int[NSUBEXP];
      endp := new int[NSUBEXP];
    }
  }

  /** The character that must begin a match, or NUL if none is obvious. */
  function StartOf(alts: Alts): int
    requires alts.ACons? && WfA(alts)
  {
    WfFirst(alts);
    if alts.rest.ANil? && OpOfRe(alts.first.head) == EXACTLY then StartsWith(alts.first.head)[0] else NUL
  }

  /** The literal that a tree with the opcode EXACTLY starts with. */
  function StartsWith(re: Re): (t: Text)
    requires Wf(re) && OpOfRe(re) == EXACTLY
    ensures |t| > 0 && ReLits(re) == [t]
  {
    if re.Lit? then re.text else StartsWith(re.x)
  }

  predicate AnchorOf(alts: Alts)
    requires alts.ACons? && WfA(alts)
  {
    alts.rest.ANil? && alts.first.head.Bol?
  }

  /** A tree that is linked at its first node to BOL is BOL. */
  lemma OnlyBol(re: Re)
    requires Wf(re)
    ensures OpOfRe(re) == BOL <==> re.Bol?
  {
    if re.Plus? {
      OnlyBol(re.x);
    }
  }

  /** The counting pass counts the cells of the program. */
  lemma SizeOfPass(a: Snap, b: Snap, c: Snap, alts: Alts)
    requires a.code == DUMMY && a.size == 0
    requires Adds(a, b, [] + [MAGIC]) && Adds(b, c, EmitA(alts, 0) + Node(END, 0))
    ensures c.size == |Program(alts)|
  {
  }

  /** The emitting pass writes the program, and fills the space allotted. */
  lemma CellsOfPass(a: Snap, b: Snap, c: Snap, alts: Alts)
    requires a.code == 0 && |a.cells| == |Program(alts)|
    requires Adds(a, b, [] + [MAGIC]) && Adds(b, c, EmitA(alts, 0) + Node(END, 0))
    ensures c.cells == Program(alts)
  {
    hide EmitA;
    hide Node;
    var e := EmitA(alts, 0) + Node(END, 0);
    AddsThen(a, b, c, [] + [MAGIC], e);
    assert [] + [MAGIC] + e == Program(alts);
    var code := Program(alts);
    forall k | 0 <= k < |code| ensures c.cells[k] == code[k] {
      assert Cell(c.cells, 0, code, k);
    }
  }

  /** Dig out of the program the information that saves work when it is run. */
  method Dig(program: Cells, flags: Flags, ghost alts: Alts) returns (r: Regexp)
    requires alts.ACons? && WfA(alts) && program == Program(alts) && |program| < MAX_PROGRAM
    requires flags == FlagsOfA(alts)
    ensures fresh(r) && fresh(r.startp) && fresh(r.endp) && r.Valid(alts)
  {
    hide Program;
    hide LitChain;
    hide MustIs;
    hide LinkAt;
    var regstart, reganch, regmust, regmlen := NUL, false, NULL, 0;
    ProgramHead(alts);
    WfFirst(alts);
    OnlyBol(alts.first.head);
    var scan := 1;
    if program[RegNext(program, scan)] == END {
      scan := scan + 3;
      if program[scan] == EXACTLY {
        regstart := program[scan + 3];
      } else if program[scan] == BOL {
        reganch := true;
      }
      if flags.spstart {
        ProgramLits(alts.first);
        regmust, regmlen := FindMust(program, scan, BranchLits(alts.first));
      }
    }
    r := new Regexp(program, regstart, reganch, regmust, regmlen);
  }

  /**
   Compile a pattern. The outcome is the complaint the grammar prescribes, or
   that the program is too big, or the compiled form.
   */
  method RegComp(exp: Text) returns (r: Regexp?, e: Error)
    ensures match Parse(exp)
            case Bad(err) => r == null && e == err
            case Ok(alts, _, _) =>
              if |Program(alts)| >= MAX_PROGRAM then r == null && e == TooBig
              else r != null && fresh(r) && fresh(r.startp) && fresh(r.endp) && r.Valid(alts)
    ensures r != null ==> exists alts :: Spells(alts, exp) && r.Valid(alts)
    ensures forall alts :: Spells(alts, exp) ==>
              if |Program(alts)| >= MAX_PROGRAM then r == null && e == TooBig else r != null && r.Valid(alts)
  {
    hide Adds;
    hide Program;
    hide Spells;
    r, e := null, TooBig;
    forall alts ensures Spells(alts, exp) <==> Parse(exp).Ok? && Parse(exp).v == alts {
      ParseSpells(exp, alts);
    }
    ghost var parsed := Parse(exp);

    // Without cells to write to, the pattern is checked and its cells are counted.
    var co := new Comp(exp);
    ghost var a := co.Now();
    AddsNothing(a);
    co.RegC(MAGIC, a, []);
    ghost var was := co.Now();
    var res := co.Reg(false);
    if res.Err? {
      return null, res.e;
    }
    ghost var alts := parsed.v;
    SizeOfPass(a, was, co.Now(), alts);
    if co.regsize >= MAX_PROGRAM {
      return;
    }

    // The same once more, now writing them.
    co.program := new int[co.regsize];
    co.regparse, co.regnpar, co.regcode := 0, 1, 0;
    a := co.Now();
    AddsNothing(a);
    co.RegC(MAGIC, a, []);
    was := co.Now();
    AddsCode(a, was, [] + [MAGIC]);
    res := co.Reg(false);
    CellsOfPass(a, was, co.Now(), alts);
    r := Dig(co.program[..], res.flags, alts);
  }

  // ----- executing -----

  /** What the three shortcuts rely on: where a match can start, and what it needs. */
  lemma MatchNeeds(alts: Alts, s: Text, i: nat)
    requires alts.ACons? && WfA(alts) && i <= |s| && Find(alts, s, i).Hit? && alts.rest.ANil?
    ensures StartOf(alts) != NUL ==> i < |s| && s[i] == StartOf(alts)
    ensures AnchorOf(alts) ==> i == 0
    ensures forall t :: t in BranchLits(alts.first) ==> Occurs(t, s, 0)
  {
    MeaningsAgree(alts, s, i);
    var j, b := Find(alts, s, i).end, alts.first;
    assert MatchesB(AsCoded, b, s, i, j);
    var m: nat :| i <= m <= j && Matches(AsCoded, b.head, s, i, m) && MatchesB(AsCoded, b.tail, s, m, j);
    if OpOfRe(b.head) == EXACTLY {
      ReStart(b.head, s, i, m);
    }
    forall t | t in BranchLits(b) ensures Occurs(t, s, 0) {
      BranchNeeds(b, s, i, j, t);
    }
  }

  /** The position of the next character c after i, as strchr(s + i, c) finds it. */
  method NextStart(s: Text, i: nat, c: int) returns (p: int)
    requires i <= |s| && c != NUL
    ensures p == NULL ==> forall k :: i <= k < |s| ==> s[k] != c
    ensures p != NULL ==> i <= p < |s| && s[p] == c && forall k :: i <= k < p ==> s[k] != c
  {
    p := i;
    while p < |s| && s[p] != c
      invariant i <= p <= |s|
      invariant forall k :: i <= k < p ==> s[k] != c
    {
      p := p + 1;
    }
    if p == |s| {
      p := NULL;
    }
  }

  /** The outcome of an execution: whether, where and how the pattern matches first. */
  ghost predicate Executed(ok: bool, startp: seq<int>, endp: seq<int>, alts: Alts, s: Text)
    requires alts.ACons? && WfA(alts)
  {
    && (ok <==> exists i: nat :: i <= |s| && MatchesFrom(AsCoded, alts, s, i))
    && (ok ==> exists i: nat :: i <= |s| && FoundAt(startp, endp, alts, s, i))
  }

  /** The leftmost match starts at i, and these are its recorded positions. */
  ghost predicate FoundAt(startp: seq<int>, endp: seq<int>, alts: Alts, s: Text, i: nat)
    requires alts.ACons? && WfA(alts) && i <= |s|
  {
    && (forall k: nat :: k < i ==> !MatchesFrom(AsCoded, alts, s, k))
    && var r := Find(alts, s, i);
       r.Hit? && Marks(startp, r.starts[0 := i]) && Marks(endp, r.ends[0 := r.end])
  }

  /** The leftmost match in the first of its ways: from where to where it goes, and the last pass of each group. */
  ghost predicate Captures(startp: seq<int>, endp: seq<int>, alts: Alts, s: Text) {
    exists i: nat, j: nat, t: Way ::
      && FirstWay(alts, s, i, j, t)
      && (forall k: nat :: k < i ==> !MatchesFrom(AsCoded, alts, s, k))
      && Marks(startp, Opens(t)[0 := i]) && Marks(endp, Shuts(t)[0 := j])
  }

  lemma FoundCaptures(startp: seq<int>, endp: seq<int>, alts: Alts, s: Text)
    requires alts.ACons? && WfA(alts) && Executed(true, startp, endp, alts, s)
    ensures Captures(startp, endp, alts, s)
  {
    hide Find;
    hide Marks;
    hide MatchesFrom;
    hide FirstWay;
    var i: nat :| i <= |s| && FoundAt(startp, endp, alts, s, i);
    var t := FindFirst(alts, s, i);
  }

  lemma LitsNotEmpty(b: Branch)
    requires WfB(b)
    ensures forall t :: t in BranchLits(b) ==> |t| > 0
  {
    if b.Cons? {
      ReLitsNotEmpty(b.head);
    }
  }

  lemma ReLitsNotEmpty(re: Re)
    requires Wf(re)
    ensures forall t :: t in ReLits(re) ==> |t| > 0
  {
  }

  /** A first hit at i settles the outcome. */
  lemma FirstSettles(startp: seq<int>, endp: seq<int>, alts: Alts, s: Text, i: nat)
    requires alts.ACons? && WfA(alts) && i <= |s| && Find(alts, s, i).Hit?
    requires forall k: nat :: k < i ==> !Find(alts, s, k).Hit?
    requires var r := Find(alts, s, i); Marks(startp, r.starts[0 := i]) && Marks(endp, r.ends[0 := r.end])
    ensures Executed(true, startp, endp, alts, s)
  {
    hide Find;
    hide MatchesFrom;
    forall k: nat | k <= i ensures Find(alts, s, k).Hit? <==> MatchesFrom(AsCoded, alts, s, k) {
      MeaningsAgree(alts, s, k);
    }
    assert FoundAt(startp, endp, alts, s, i);
  }

  lemma NoneSettles(startp: seq<int>, endp: seq<int>, alts: Alts, s: Text)
    requires alts.ACons? && WfA(alts)
    requires forall k: nat :: k <= |s| ==> !Find(alts, s, k).Hit?
    ensures Executed(false, startp, endp, alts, s)
  {
    hide Find;
    hide MatchesFrom;
    forall k: nat | k <= |s| ensures !MatchesFrom(AsCoded, alts, s, k) {
      MeaningsAgree(alts, s, k);
    }
  }

  /** The general case: try every position up to the end of the subject. */
  method TryAll(ex: Exec, ghost alts: Alts) returns (ok: bool)
    requires alts.ACons? && WfA(alts) && At(ex.prog, 1, Push(Choice(alts), Done)) && |ex.prog| <= MAX_PROGRAM
    requires ex.startp != ex.endp && ex.startp.Length == ex.endp.Length == NSUBEXP
    modifies ex`reginput, ex.startp, ex.endp
    ensures Executed(ok, ex.startp[..], ex.endp[..], alts, ex.s)
  {
    hide At;
    hide Find;
    hide Executed;
    var s := 0;
    ok := ex.RegTry(s, alts);
    while !ok
      invariant s <= |ex.s|
      invariant forall k: nat :: k < s ==> !Find(alts, ex.s, k).Hit?
      invariant ok <==> Find(alts, ex.s, s).Hit?
      invariant ok ==> var r := Find(alts, ex.s, s);
                       Marks(ex.startp[..], r.starts[0 := s]) && Marks(ex.endp[..], r.ends[0 := r.end])
      decreases |ex.s| - s, !ok
    {
      if s == |ex.s| {
        NoneSettles(ex.startp[..], ex.endp[..], alts, ex.s);
        return false;
      }
      s := s + 1;
      ok := ex.RegTry(s, alts);
    }
    FirstSettles(ex.startp[..], ex.endp[..], alts, ex.s, s);
  }

  /** Try the start of the subject, and then wherever the first character of a match stands. */
  method TryStarts(ex: Exec, regstart: int, ghost alts: Alts) returns (ok: bool)
    requires alts.ACons? && WfA(alts) && At(ex.prog, 1, Push(Choice(alts), Done)) && |ex.prog| <= MAX_PROGRAM
    requires ex.startp != ex.endp && ex.startp.Length == ex.endp.Length == NSUBEXP
    requires regstart == StartOf(alts) != NUL && ex.s != []
    modifies ex`reginput, ex.startp, ex.endp
    ensures Executed(ok, ex.startp[..], ex.endp[..], alts, ex.s)
  {
    hide At;
    hide Find;
    hide Executed;
    hide StartOf;
    forall k: nat | k <= |ex.s| && Find(alts, ex.s, k).Hit? ensures k < |ex.s| && ex.s[k] == regstart {
      SingleStart(alts);
      MatchNeeds(alts, ex.s, k);
    }
    var s: int := 0;
    while s != NULL
      invariant s == NULL || 0 <= s < |ex.s|
      invariant forall k: nat :: k <= |ex.s| && (s == NULL || k < s) ==> !Find(alts, ex.s, k).Hit?
      decreases if s == NULL then -1 else |ex.s| - s
    {
      ok := ex.RegTry(s, alts);
      if ok {
        FirstSettles(ex.startp[..], ex.endp[..], alts, ex.s, s);
        return;
      }
      s := NextStart(ex.s, s + 1, regstart);
    }
    ok := false;
    NoneSettles(ex.startp[..], ex.endp[..], alts, ex.s);
  }

  lemma SingleStart(alts: Alts)
    requires alts.ACons? && WfA(alts) && StartOf(alts) != NUL
    ensures alts.rest.ANil?
  {
  }

  /** An anchored match need be tried only once. */
  method TryAnchored(ex: Exec, ghost alts: Alts) returns (ok: bool)
    requires alts.ACons? && WfA(alts) && At(ex.prog, 1, Push(Choice(alts), Done)) && |ex.prog| <= MAX_PROGRAM
    requires ex.startp != ex.endp && ex.startp.Length == ex.endp.Length == NSUBEXP
    requires AnchorOf(alts)
    modifies ex`reginput, ex.startp, ex.endp
    ensures Executed(ok, ex.startp[..], ex.endp[..], alts, ex.s)
  {
    hide At;
    hide Find;
    hide Executed;
    ok := ex.RegTry(0, alts);
    if ok {
      FirstSettles(ex.startp[..], ex.endp[..], alts, ex.s, 0);
    } else {
      forall k: nat | k <= |ex.s| ensures !Find(alts, ex.s, k).Hit? {
        if Find(alts, ex.s, k).Hit? {
          MatchNeeds(alts, ex.s, k);
        }
      }
      NoneSettles(ex.startp[..], ex.endp[..], alts, ex.s);
    }
  }

  /** Is the string that every match needs in the subject? */
  method HasMust(prog: Regexp, s: Text, ghost alts: Alts) returns (ok: bool)
    requires prog.Valid(alts) && prog.regmust != NULL
    ensures !ok ==> forall k: nat :: k <= |s| ==> !Find(alts, s, k).Hit?
  {
    hide Find;
    hide Program;
    hide StartOf;
    ghost var ls := BranchLits(alts.first);
    ghost var k :| 0 <= k < |ls| && IsMust(prog.program, prog.regmust, prog.regmlen, ls, k);
    WfFirst(alts);
    LitsNotEmpty(alts.first);
    assert ls[k] in ls;
    ok := StrStr(s, 0, prog.program, prog.regmust, ls[k]);
    if !ok {
      forall i: nat | i <= |s| ensures !Find(alts, s, i).Hit? {
        if Find(alts, s, i).Hit? {
          MatchNeeds(alts, s, i);
        }
      }
    }
  }

  /**
   Execute a compiled pattern on a subject. A subject that is to be searched
   for a first character must not be empty: the search steps past its first
   cell before looking.
   */
  method RegExec(prog: Regexp, s: Text, ghost alts: Alts) returns (ok: bool)
    requires prog.program != [] && (prog.program[0] == MAGIC ==> prog.Valid(alts))
    requires prog.program[0] == MAGIC && prog.regstart != NUL ==> s != []
    modifies prog.startp, prog.endp
    ensures prog.program[0] != MAGIC ==> !ok
    ensures prog.program[0] == MAGIC ==> Executed(ok, prog.startp[..], prog.endp[..], alts, s)
    ensures ok ==> Captures(prog.startp[..], prog.endp[..], alts, s)
  {
    hide Program;
    hide Executed;
    hide Captures;
    hide At;
    hide Find;
    if prog.program[0] != MAGIC {
      return false;
    }
    if prog.regmust != NULL {
      ok := HasMust(prog, s, alts);
      if !ok {
        NoneSettles(prog.startp[..], prog.endp[..], alts, s);
        return;
      }
    }
    ProgramAt(alts);
    var ex := new Exec(prog.program, s, prog.startp, prog.endp);
    if prog.reganch {
      ok := TryAnchored(ex, alts);
    } else if prog.regstart != NUL {
      ok := TryStarts(ex, prog.regstart, alts);
    } else {
      ok := TryAll(ex, alts);
    }
    if ok {
      FoundCaptures(prog.startp[..], prog.endp[..], alts, s);
    }
  }

  /**
   What a pattern says it matches, it matches. It matches nothing else in a
   subject that stretches none of its literals, and single characters are
   stretched by no subject.
   */
  lemma OrdinaryMeaning(alts: Alts, s: Text, i: nat)
    requires i <= |s|
    ensures MatchesFrom(Ordinary, alts, s, i) ==> MatchesFrom(AsCoded, alts, s, i)
    ensures FairA(alts, s) ==> (MatchesFrom(AsCoded, alts, s, i) <==> MatchesFrom(Ordinary, alts, s, i))
    ensures SingleLitsA(alts) ==> FairA(alts, s)
  {
    if MatchesFrom(Ordinary, alts, s, i) {
      var j: nat :| i <= j <= |s| && MatchesA(Ordinary, alts, s, i, j);
      CarryA(Ordinary, AsCoded, alts, s, i, j);
    }
    if FairA(alts, s) && MatchesFrom(AsCoded, alts, s, i) {
      var j: nat :| i <= j <= |s| && MatchesA(AsCoded, alts, s, i, j);
      CarryA(AsCoded, Ordinary, alts, s, i, j);
    }
    if SingleLitsA(alts) {
      SingleFairA(alts, s);
    }
  }

  /** Longer literals do not: "^ab" is found in "acab", whose start it does not match as written. */
  lemma LongLiteralStretches()
    ensures var pat: Text := [CARET, 97, 98]; var s: Text := [97, 99, 97, 98];
            && Parse(pat).Ok?
            && MatchesFrom(AsCoded, Parse(pat).v, s, 0)
            && forall i: nat :: i <= |s| ==> !MatchesFrom(Ordinary, Parse(pat).v, s, i)
  {
    var pat: Text := [CARET, 97, 98];
    var s: Text := [97, 99, 97, 98];
    var b := Cons(Bol, Cons(Lit([97, 98]), Nil));
    ParseExample();
    var alts := ACons(b, ANil);
    assert OccursAt([97, 98], s, 2);
    assert Matches(AsCoded, Lit([97, 98]), s, 0, 2) && MatchesB(AsCoded, Nil, s, 2, 2);
    assert MatchesB(AsCoded, b.tail, s, 0, 2) && Matches(AsCoded, Bol, s, 0, 0);
    assert MatchesB(AsCoded, b, s, 0, 2);
    assert MatchesA(AsCoded, alts, s, 0, 2);
    forall i: nat, j: nat | i <= j <= |s| ensures !MatchesA(Ordinary, alts, s, i, j) {
      assert s[0..2][1] == 99;
      assert !OccursAt([97, 98], s, 0);
      forall m: nat | i <= m <= j && Matches(Ordinary, Bol, s, i, m) ensures !MatchesB(Ordinary, b.tail, s, m, j) {
      }
      assert !MatchesB(Ordinary, b, s, i, j);
    }
  }

  lemma ParseExample()
    ensures var pat: Text := [CARET, 97, 98];
            Parse(pat) == Ok(ACons(Cons(Bol, Cons(Lit([97, 98]), Nil)), ANil), 3, 1)
  {
    var pat: Text := [CARET, 97, 98];
    assert OrdinaryRun(pat, 3) == 0;
    assert OrdinaryRun(pat, 2) == 1;
    assert OrdinaryRun(pat, 1) == 2;
    assert pat[1..3] == [97, 98];
    assert ParsePiece(pat, 1, 1) == Ok(Lit([97, 98]), 3, 1);
    assert ParsePiece(pat, 0, 1) == Ok(Bol, 1, 1);
    var b := Cons(Bol, Cons(Lit([97, 98]), Nil));
    assert ParseBranch(pat, 3, 1, b) == Ok(b, 3, 1);
    assert ParseBranch(pat, 1, 1, Cons(Bol, Nil)) == Ok(b, 3, 1);
    assert ParseBranch(pat, 0, 1, Nil) == Ok(b, 3, 1);
    assert SnocA(ANil, b) == ACons(b, ANil);
    assert ParseAlts(pat, 0, 1, ANil) == Ok(ACons(b, ANil), 3, 1);
  }
}
