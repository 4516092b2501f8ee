/**
 The compiler. The same methods run twice, first only counting cells and then
 writing them; each is proved, for both passes, to consume exactly what the
 grammar says and to add exactly the cells of the layout functions, whatever
 relocation and link setting that takes.
 */
module RegexCompile {
  import opened RegexSyntax
  import opened RegexCode
  import opened RegexLinks
  import opened RegexPatch
  import opened RegexLoops

  /** The code pointer of the counting pass: nothing is written. */
  const DUMMY := -2

  /** A node and the flags of what it starts, or a complaint. */
  datatype Result = Ret(at: int, flags: Flags) | Err(e: Error)

  datatype Verdict = Fine | Failed(e: Error)

  /** What the compiler has produced so far: code pointer, cell count, cells. */
  datatype Snap = Snap(code: int, size: nat, cells: Cells)

  /** From a to b exactly these cells were counted, or were written at the code pointer. */
  ghost predicate Adds(a: Snap, b: Snap, code: Cells) {
    |a.cells| == |b.cells| &&
    if a.code == DUMMY then
      b == Snap(DUMMY, a.size + |code|, a.cells)
    else
      && 0 <= a.code <= |a.cells| && b.code == a.code + |code| && b.size == a.size
      && (forall k :: 0 <= k < a.code ==> b.cells[k] == a.cells[k])
      && Has(b.cells, a.code, code)
  }

  /** Where the code pointer is after some code was added. */
  lemma AddsCode(a: Snap, b: Snap, code: Cells)
    requires Adds(a, b, code)
    ensures (a.code == DUMMY <==> b.code == DUMMY) && (a.code == DUMMY || (0 <= a.code && b.code == a.code + |code|))
  {
  }

  lemma AddsHas(a: Snap, b: Snap, code: Cells)
    requires Adds(a, b, code) && a.code != DUMMY
    ensures Has(b.cells, a.code, code)
  {
  }

  /** The counting pass only knows how many cells. */
  lemma AddsCounted(a: Snap, b: Snap, c1: Cells, c2: Cells)
    requires Adds(a, b, c1) && a.code == DUMMY && |c1| == |c2|
    ensures Adds(a, b, c2)
  {
  }

  lemma AddsNothing(a: Snap)
    requires a.code == DUMMY || 0 <= a.code <= |a.cells|
    ensures Adds(a, a, [])
  {
  }

  lemma AddsThen(a: Snap, b: Snap, c: Snap, c1: Cells, c2: Cells)
    requires Adds(a, b, c1) && Adds(b, c, c2)
    ensures Adds(a, c, c1 + c2)
  {
    if a.code != DUMMY {
      HasSame(b.cells, c.cells, a.code, c1);
      HasSplit(c.cells, a.code, c1, c2);
    }
  }

  /** Setting a link in the added cells. */
  lemma AddsPatched(a: Snap, b: Snap, b': Snap, code: Cells, n: nat, v: nat)
    requires Adds(a, b, code) && a.code >= 0 && n + 2 < |code| && a.code + n + 2 < |b.cells|
    requires b' == b.(cells := SetLink(b.cells, a.code + n, v))
    ensures Adds(a, b', SetLink(code, n, v))
  {
    PatchCode(b.cells, a.code, code, n, v);
  }

  /** An operand moved up by one node with a node put in its place. */
  lemma Moved(pg: Cells, mid: Cells, pg': Cells, p: nat, op: int, body: Cells)
    requires Has(pg, p, body) && p + 3 + |body| <= |mid| && pg' == mid[p := op][p + 1 := 0][p + 2 := 0]
    requires forall k :: p + 3 <= k < p + 3 + |body| ==> mid[k] == pg[k - 3]
    ensures Has(pg', p, Node(op, 0) + body)
  {
    var q := p + 3;
    forall k | 0 <= k < 3 ensures Cell(pg', p, Node(op, 0), k) {
    }
    forall k | 0 <= k < |body| ensures Cell(pg', q, body, k) {
      assert Cell(pg, p, body, k);
    }
    HasSplit(pg', p, Node(op, 0), body);
  }

  /** Copy n cells within an array whose areas may overlap. */
  method MemMove(m: array<int>, to: nat, from: nat, n: nat)
    requires to + n <= m.Length && from + n <= m.Length
    modifies m
    ensures forall k :: to <= k < to + n ==> m[k] == old(m[k - to + from])
    ensures forall k :: 0 <= k < m.Length && !(to <= k < to + n) ==> m[k] == old(m[k])
  {
    if from == to || n == 0 {
      return;
    }
    if to > from && to - from < n {
      var i: int := n - 1;
      while i >= 0
        invariant -1 <= i < n
        invariant forall k :: to + i < k < to + n ==> m[k] == old(m[k - to + from])
        invariant forall k :: 0 <= k < m.Length && !(to + i < k < to + n) ==> m[k] == old(m[k])
      {
        m[to + i] := m[from + i];
        i := i - 1;
      }
    } else {
      var i := 0;
      while i < n
        invariant 0 <= i <= n
        invariant forall k :: to <= k < to + i ==> m[k] == old(m[k - to + from])
        invariant forall k :: 0 <= k < m.Length && !(to <= k < to + i) ==> m[k] == old(m[k])
      {
        m[to + i] := m[from + i];
        i := i + 1;
      }
    }
  }

  /** The work variables of one compilation. */
  class Comp {
    const pat: Text
    var regparse: nat
    var regnpar: nat
    var regcode: int
    var regsize: nat
    var program: array<int>

    /** Ready for the counting pass. */
    constructor (pat: Text)
      ensures this.pat == pat && regparse == 0 && regnpar == 1 && regcode == DUMMY && regsize == 0
      ensures fresh(program) && program.Length == 0
    {
      this.pat := pat;
      regparse, regnpar, regcode, regsize := 0, 1, DUMMY, 0;
      program := new int[0];
    }

    ghost predicate Valid()
      reads this
    {
      && regparse <= |pat| && 0 < regnpar && program.Length <= MAX_PROGRAM
      && (regcode == DUMMY || 0 <= regcode <= program.Length)
    }

    /** There is room for n more cells, if cells are being written. */
    ghost predicate Fits(n: int)
      reads this
    {
      regcode != DUMMY ==> regcode + n <= program.Length
    }

    ghost function Now(): Snap
      reads this, program
    {
      Snap(regcode, regsize, program[..])
    }

    // The methods that emit take, for the proof, the state a from which some
    // code has been added so far.

    method RegC(b: int, ghost a: Snap, ghost code: Cells)
      requires Valid() && Fits(1) && Adds(a, Now(), code)
      modifies this`regcode, this`regsize, program
      ensures Valid() && Adds(a, Now(), code + [b])
    {
      ghost var was := Now();
      if regcode != DUMMY {
        program[regcode] := b;
        regcode := regcode + 1;
        assert Cell(program[..], old(regcode), [b], 0);
      } else {
        regsize := regsize + 1;
      }
      AddsThen(a, was, Now(), code, [b]);
    }

    method RegNode(op: int, ghost a: Snap, ghost code: Cells) returns (ret: int)
      requires Valid() && Fits(3) && Adds(a, Now(), code)
      modifies this`regcode, this`regsize, program
      ensures Valid() && ret == old(regcode) && Adds(a, Now(), code + Node(op, 0))
    {
      ghost var was := Now();
      ret := regcode;
      if regcode == DUMMY {
        regsize := regsize + 3;
      } else {
        program[ret], program[ret + 1], program[ret + 2] := op, 0, 0;
        regcode := ret + 3;
        forall k | 0 <= k < 3 ensures Cell(program[..], ret, Node(op, 0), k) {
        }
      }
      AddsThen(a, was, Now(), code, Node(op, 0));
    }

    /** Insert an operator in front of an operand that has been emitted already. */
    method RegInsert(op: int, opnd: int, ghost a: Snap, ghost body: Cells)
      requires Valid() && Fits(3) && opnd == a.code && Adds(a, Now(), body)
      modifies this`regcode, this`regsize, program
      ensures Valid() && Adds(a, Now(), Node(op, 0) + body)
    {
      hide Has;
      if regcode == DUMMY {
        regsize := regsize + 3;
        return;
      }
      MemMove(program, opnd + 3, opnd, regcode - opnd);
      ghost var mid := program[..];
      regcode := regcode + 3;
      program[opnd], program[opnd + 1], program[opnd + 2] := op, 0, 0;
      assert program[..] == mid[opnd := op][opnd + 1 := 0][opnd + 2 := 0];
      Moved(old(program[..]), mid, program[..], opnd, op, body);
    }

    /**
     Set the link at the end of a chain of nodes. In the added code the chain
     starts at q and ends at n, and v is the link it takes to get to val.
     */
    method RegTail(p: int, val: int, ghost a: Snap, ghost code: Cells, ghost q: nat, ghost n: nat, ghost v: nat)
      requires Valid() && Adds(a, Now(), code) && n + 2 < |code|
      requires a.code != DUMMY ==> p == a.code + q && Loose(code, q, n)
      requires a.code != DUMMY ==> val == if code[n] == BACK then a.code + n - v else a.code + n + v
      modifies program
      ensures Adds(a, Now(), SetLink(code, n, v))
    {
      if regcode == DUMMY {
        return;
      }
      ghost var was, t := Now(), a.code + n;
      LooseMoved(program[..], a.code, code, q, n);
      var scan := p;
      while LinkAt(program[..], scan) != 0
        invariant program[..] == was.cells
        invariant 0 <= scan <= t && Walk(program[..], scan, t)
        decreases t - scan
      {
        WalkInside(program[..], scan + LinkAt(program[..], scan), t);
        scan := scan + LinkAt(program[..], scan);
      }
      var offset := if program[scan] == BACK then scan - val else val - scan;
      program[scan + 1] := Hi(offset);
      program[scan + 2] := Lo(offset);
      AddsPatched(a, was, Now(), code, n, v);
    }

    /** RegTail on the operand of p; nothing if p has none. */
    method RegOpTail(p: int, val: int, ghost a: Snap, ghost code: Cells, ghost q: nat, ghost n: nat, ghost v: nat)
      requires Valid() && Adds(a, Now(), code) && q < |code| && n + 2 < |code|
      requires a.code != DUMMY ==> p == a.code + q
      requires a.code != DUMMY && code[q] == BRANCH ==>
                 Loose(code, q + 3, n) && val == if code[n] == BACK then a.code + n - v else a.code + n + v
      modifies program
      ensures Adds(a, Now(), if code[q] == BRANCH then SetLink(code, n, v) else code)
    {
      if regcode == DUMMY {
        return;
      }
      assert Cell(program[..], a.code, code, q);
      if program[p] != BRANCH {
        return;
      }
      RegTail(p + 3, val, a, code, q + 3, n, v);
    }

    /** x* as (x&|): a choice before x, a loop back behind it, and an empty alternative. */
    method LoopStar(ret: int, ghost x: Re, ghost a: Snap)
      requires Valid() && Fits(12) && Wf(x) && !Simple(x)
      requires ret == a.code && Adds(a, Now(), Emit(x, 0))
      modifies this`regcode, this`regsize, program
      ensures Valid() && Adds(a, Now(), Emit(Star(x), 0))
    {
      hide Emit;
      hide Has;
      hide Adds;
      hide Loose;
      hide SetLink;
      hide Size;
      hide TailAt;
      hide Node;
      hide Wf;
      ghost var n := Size(x);
      AddsCode(a, Now(), Emit(x, 0));
      RegInsert(BRANCH, ret, a, Emit(x, 0));
      AddsCode(a, Now(), Node(BRANCH, 0) + Emit(x, 0));
      var back := RegNode(BACK, a, Node(BRANCH, 0) + Emit(x, 0));
      AddsCode(a, Now(), Star1(x, 0, 0));
      StarStep1(x);
      RegOpTail(ret, back, a, Star1(x, 0, 0), 0, 3 + TailAt(x), Onward(x));
      StarStep2(x);
      RegOpTail(ret, ret, a, Star1(x, Onward(x), 0), 0, 3 + n, n + 3);
      LoopStarEnd(ret, x, a);
    }

    method LoopStarEnd(ret: int, ghost x: Re, ghost a: Snap)
      requires Valid() && Fits(6) && !Simple(x)
      requires ret == a.code && Adds(a, Now(), Star1(x, Onward(x), Size(x) + 3))
      modifies this`regcode, this`regsize, program
      ensures Valid() && Adds(a, Now(), Emit(Star(x), 0))
    {
      hide Emit;
      hide Has;
      hide Adds;
      hide Loose;
      hide SetLink;
      hide Size;
      hide TailAt;
      hide Node;
      ghost var n := Size(x);
      AddsCode(a, Now(), Star1(x, Onward(x), n + 3));
      var alt := RegNode(BRANCH, a, Star1(x, Onward(x), n + 3));
      AddsCode(a, Now(), Star1(x, Onward(x), n + 3) + Node(BRANCH, 0));
      StarStep3(x);
      RegTail(ret, alt, a, Star1(x, Onward(x), n + 3) + Node(BRANCH, 0), 0, 0, n + 6);
      var nothing := RegNode(NOTHING, a, Star2(x, n + 6, 0));
      AddsCode(a, Now(), Star2(x, n + 6, 0) + Node(NOTHING, 0));
      StarStep4(x);
      RegTail(ret, nothing, a, Star2(x, n + 6, 0) + Node(NOTHING, 0), 0, n + 6, 3);
      StarEmit(x, 0);
    }

    /** x+ as x(&|). */
    method LoopPlus(ret: int, ghost x: Re, ghost a: Snap)
      requires Valid() && Fits(12) && Wf(x) && !Simple(x)
      requires ret == a.code && Adds(a, Now(), Emit(x, 0))
      modifies this`regcode, this`regsize, program
      ensures Valid() && Adds(a, Now(), Emit(Plus(x), 0))
    {
      hide Emit;
      hide Has;
      hide Adds;
      hide Loose;
      hide SetLink;
      hide Size;
      hide TailAt;
      hide Node;
      hide Wf;
      ghost var n := Size(x);
      AddsCode(a, Now(), Emit(x, 0));
      var next := RegNode(BRANCH, a, Emit(x, 0));
      AddsCode(a, Now(), Emit(x, 0) + Node(BRANCH, 0));
      PlusStep1(x);
      RegTail(ret, next, a, Emit(x, 0) + Node(BRANCH, 0), 0, TailAt(x), Onward(x));
      var back := RegNode(BACK, a, Emit(x, Onward(x)) + Node(BRANCH, 0));
      AddsCode(a, Now(), Plus1(x, Onward(x), 0, 0));
      PlusStep2(x);
      RegTail(back, ret, a, Plus1(x, Onward(x), 0, 0), n + 3, n + 3, n + 3);
      LoopPlusEnd(ret, next, x, a);
    }

    method LoopPlusEnd(ret: int, next: int, ghost x: Re, ghost a: Snap)
      requires Valid() && Fits(6) && Wf(x) && !Simple(x)
      requires ret == a.code && (a.code != DUMMY ==> next == ret + Size(x))
      requires Adds(a, Now(), Plus1(x, Onward(x), 0, Size(x) + 3))
      modifies this`regcode, this`regsize, program
      ensures Valid() && Adds(a, Now(), Emit(Plus(x), 0))
    {
      hide Emit;
      hide Has;
      hide Adds;
      hide Loose;
      hide SetLink;
      hide Size;
      hide TailAt;
      hide Node;
      hide Wf;
      ghost var n := Size(x);
      AddsCode(a, Now(), Plus1(x, Onward(x), 0, n + 3));
      var alt := RegNode(BRANCH, a, Plus1(x, Onward(x), 0, n + 3));
      AddsCode(a, Now(), Plus1(x, Onward(x), 0, n + 3) + Node(BRANCH, 0));
      PlusStep3(x);
      RegTail(next, alt, a, Plus1(x, Onward(x), 0, n + 3) + Node(BRANCH, 0), n, n, 6);
      var nothing := RegNode(NOTHING, a, Plus1(x, Onward(x), 6, n + 3) + Node(BRANCH, 0));
      ghost var c := Plus1(x, Onward(x), 6, n + 3) + Node(BRANCH, 0) + Node(NOTHING, 0);
      AddsCode(a, Now(), c);
      PlusStep4(x);
      RegTail(ret, nothing, a, c, 0, n + 6, 3);
      StarEmit(x, 0);
    }

    /** x? as (x|). */
    method LoopOpt(ret: int, ghost x: Re, ghost a: Snap)
      requires Valid() && Fits(9) && Wf(x)
      requires ret == a.code && Adds(a, Now(), Emit(x, 0))
      modifies this`regcode, this`regsize, program
      ensures Valid() && Adds(a, Now(), Emit(Opt(x), 0))
    {
      hide Emit;
      hide Has;
      hide Adds;
      hide Loose;
      hide SetLink;
      hide Size;
      hide TailAt;
      hide Wf;
      ghost var n := Size(x);
      AddsCode(a, Now(), Emit(x, 0));
      RegInsert(BRANCH, ret, a, Emit(x, 0));
      AddsCode(a, Now(), Node(BRANCH, 0) + Emit(x, 0));
      var alt := RegNode(BRANCH, a, Node(BRANCH, 0) + Emit(x, 0));
      ghost var c1 := Node(BRANCH, 0) + Emit(x, 0) + Node(BRANCH, 0);
      AddsCode(a, Now(), c1);
      OptStep1(x);
      RegTail(ret, alt, a, c1, 0, 0, n + 3);
      ghost var c2 := Node(BRANCH, n + 3) + Emit(x, 0) + Node(BRANCH, 0);
      var next := RegNode(NOTHING, a, c2);
      AddsCode(a, Now(), c2 + Node(NOTHING, 0));
      OptStep2(x);
      RegTail(ret, next, a, c2 + Node(NOTHING, 0), 0, n + 3, 3);
      OptStep3(x);
      RegOpTail(ret, next, a, OptCode(Emit(x, 0), 0), 0, 3 + TailAt(x), Onward(x) + 3);
      OptEmit(x, 0);
    }

    /** The characters after lo up to hi, one by one. */
    method RegRange(lo: Ch, hi: Ch, ghost a: Snap, ghost code: Cells)
      requires Valid() && lo <= hi && Fits(hi - lo) && Adds(a, Now(), code)
      modifies this`regcode, this`regsize, program
      ensures Valid() && Adds(a, Now(), code + After(lo, hi))
    {
      hide Adds;
      ghost var done: Text := [];
      assert code + done == code;
      AddsCode(a, Now(), code);
      var range: int := lo + 1;
      while range <= hi
        invariant lo < range <= hi + 1
        invariant Valid() && done == After(lo, hi)[..range - lo - 1]
        invariant Fits(hi + 1 - range) && Adds(a, Now(), code + done)
      {
        assert code + done + [range] == code + (done + [range]);
        AddsCode(a, Now(), code + done);
        RegC(range, a, code + done);
        AddsCode(a, Now(), code + (done + [range]));
        done := done + [range];
        range := range + 1;
      }
      assert done == After(lo, hi);
    }

    /** One member or one range of a class. */
    method RegMember(ghost a: Snap, ghost node: Cells, ghost acc: Text) returns (ok: bool, ghost acc': Text)
      requires Valid() && 0 < regparse < |pat| && pat[regparse] != RBRACKET
      requires Adds(a, Now(), node + acc)
      requires var p := ParseClass(pat, regparse, regnpar, acc);
               a.code != DUMMY ==> p.Ok? && a.code + |node| + |p.v| <= program.Length
      modifies this`regparse, this`regcode, this`regsize, program
      ensures ok ==> Valid() && old(regparse) < regparse && Adds(a, Now(), node + acc')
      ensures ok ==> ParseClass(pat, old(regparse), regnpar, acc) == ParseClass(pat, regparse, regnpar, acc')
      ensures !ok ==> ParseClass(pat, old(regparse), regnpar, acc) == Bad(InvalidRange)
    {
      hide Adds;
      ghost var code := node + acc;
      AddsCode(a, Now(), code);
      var c, next := pat[regparse], Peek(pat, regparse + 1);
      if c != HYPHEN || next == RBRACKET || next == NUL {
        acc' := acc + [c];
        assert code + [c] == node + acc';
        assert ParseClass(pat, regparse, regnpar, acc) == ParseClass(pat, regparse + 1, regnpar, acc');
        RegC(c, a, code);
        regparse := regparse + 1;
      } else {
        acc' := acc;
        var lo, hi := pat[regparse - 1], pat[regparse + 1];
        if lo > hi {
          return false, acc';
        }
        acc' := acc + After(lo, hi);
        assert code + After(lo, hi) == node + acc';
        assert ParseClass(pat, regparse, regnpar, acc) == ParseClass(pat, regparse + 2, regnpar, acc');
        RegRange(lo, hi, a, code);
        regparse := regparse + 2;
      }
      ok := true;
    }

    /** A class, from behind its opening bracket and '^'. */
    method RegBracket(op: int) returns (r: Verdict)
      requires Valid() && 0 < regparse
      requires var p := ParseBracket(pat, regparse, regnpar);
               regcode != DUMMY ==> p.Ok? && regcode + 4 + |p.v| <= program.Length
      modifies this`regparse, this`regcode, this`regsize, program
      ensures match ParseBracket(pat, old(regparse), old(regnpar))
              case Ok(cs, pos, _) =>
                r == Fine && regparse == pos && Valid() && Adds(old(Now()), Now(), StringCode(op, cs, 0))
              case Bad(e) => r == Failed(e)
    {
      hide Adds;
      ghost var a, goal := Now(), ParseBracket(pat, regparse, regnpar);
      ghost var acc: Text, node := [], Node(op, 0);
      AddsNothing(a);
      assert [] + node == node == node + acc;
      var _ := RegNode(op, a, []);
      AddsCode(a, Now(), node);
      var c := Peek(pat, regparse);
      if c == RBRACKET || c == HYPHEN {
        RegC(c, a, node);
        acc := [c];
        regparse := regparse + 1;
      }
      while regparse < |pat| && pat[regparse] != RBRACKET
        invariant Valid() && 0 < regparse
        invariant Adds(a, Now(), node + acc)
        invariant ParseClass(pat, regparse, regnpar, acc) == goal
        decreases |pat| - regparse
      {
        var ok;
        ok, acc := RegMember(a, node, acc);
        if !ok {
          return Failed(InvalidRange);
        }
      }
      AddsCode(a, Now(), node + acc);
      RegC(NUL, a, node + acc);
      if Peek(pat, regparse) != RBRACKET {
        return Failed(UnmatchedBracket);
      }
      regparse := regparse + 1;
      r := Fine;
    }

    /** A literal of the next len characters. */
    method RegLiteral(len: nat) returns (ret: int)
      requires Valid() && regparse + len <= |pat| && Fits(4 + len)
      modifies this`regparse, this`regcode, this`regsize, program
      ensures Valid() && ret == old(regcode) && regparse == old(regparse) + len
      ensures Adds(old(Now()), Now(), StringCode(EXACTLY, pat[old(regparse)..regparse], 0))
    {
      hide Adds;
      ghost var a, p := Now(), regparse;
      AddsNothing(a);
      ret := RegNode(EXACTLY, a, []);
      assert [] + Node(EXACTLY, 0) == Node(EXACTLY, 0) + pat[p..p];
      var n := len;
      while n > 0
        invariant 0 <= n <= len && regparse == p + len - n
        invariant Valid() && Adds(a, Now(), Node(EXACTLY, 0) + pat[p..regparse])
        invariant Fits(n + 1)
      {
        ghost var code := Node(EXACTLY, 0) + pat[p..regparse];
        AddsCode(a, Now(), code);
        RegC(pat[regparse], a, code);
        AddsCode(a, Now(), code + [pat[regparse]]);
        assert code + [pat[regparse]] == Node(EXACTLY, 0) + pat[p..regparse + 1];
        regparse := regparse + 1;
        n := n - 1;
      }
      RegC(NUL, a, Node(EXACTLY, 0) + pat[p..regparse]);
    }

    /** If cells are being written, the tree to come is legal and there is room for it. */
    ghost predicate Room(p: Parsed<Re>)
      reads this
    {
      regcode != DUMMY ==> p.Ok? && regcode + Size(p.v) <= program.Length
    }

    /** The outcome is what the grammar says, and so is what was added. */
    ghost predicate Compiled(p: Parsed<Re>, was: Snap, r: Result)
      reads this, program
    {
      match p
      case Bad(e) => r == Err(e)
      case Ok(re, pos, npar) =>
        && r == Ret(was.code, FlagsOf(re))
        && Valid() && regparse == pos && regnpar == npar
        && Adds(was, Now(), Emit(re, 0))
    }

    method RegAtom() returns (r: Result)
      requires Valid() && Room(ParseAtom(pat, regparse, regnpar))
      modifies this`regparse, this`regnpar, this`regcode, this`regsize, program
      ensures Compiled(ParseAtom(pat, old(regparse), old(regnpar)), old(Now()), r)
      decreases |pat| - regparse, 0
    {
      hide Adds;
      ghost var a := Now();
      AddsNothing(a);
      var c := Peek(pat, regparse);
      if c == CARET || c == DOLLAR || c == DOT {
        var op := if c == CARET then BOL else if c == DOLLAR then EOL else ANY;
        var ret := RegNode(op, a, []);
        assert [] + Node(op, 0) == Node(op, 0);
        regparse := regparse + 1;
        r := Ret(ret, if c == DOT then Flags(true, true, false) else WORST);
      } else if c == LBRACKET {
        r := RegAtomClass();
      } else if c == LPAREN {
        regparse := regparse + 1;
        r := Reg(true);
      } else if c == NUL || c == BAR || c == RPAREN {
        r := Err(Unexpected);
      } else if IsRepn(c) {
        r := Err(RepeatFollowsNothing);
      } else {
        r := RegAtomLiteral();
      }
    }

    method RegAtomClass() returns (r: Result)
      requires Valid() && Room(ParseAtom(pat, regparse, regnpar)) && Peek(pat, regparse) == LBRACKET
      modifies this`regparse, this`regcode, this`regsize, program
      ensures Compiled(ParseAtom(pat, old(regparse), old(regnpar)), old(Now()), r)
    {
      hide Adds;
      var ret := regcode;
      var v;
      if Peek(pat, regparse + 1) == CARET {
        regparse := regparse + 2;
        v := RegBracket(ANYBUT);
      } else {
        regparse := regparse + 1;
        v := RegBracket(ANYOF);
      }
      r := if v.Failed? then Err(v.e) else Ret(ret, Flags(true, true, false));
    }

    lemma OneSlice(t: Text, k: nat)
      requires k < |t|
      ensures t[k..k + 1] == [t[k]]
    {
    }

    lemma LiteralCode(t: Text)
      requires t != []
      ensures Emit(Lit(t), 0) == StringCode(EXACTLY, t, 0) && Size(Lit(t)) == 4 + |t|
      ensures FlagsOf(Lit(t)) == Flags(true, |t| == 1, false)
    {
    }

    method RegAtomLiteral() returns (r: Result)
      requires Valid() && Room(ParseAtom(pat, regparse, regnpar))
      requires var c := Peek(pat, regparse); c != NUL && (c == BACKSLASH || !IsMeta(c))
      modifies this`regparse, this`regcode, this`regsize, program
      ensures Compiled(ParseAtom(pat, old(regparse), old(regnpar)), old(Now()), r)
    {
      hide Adds;
      hide ParseAtom;
      hide OrdinaryRun;
      hide Emit;
      hide FlagsOf;
      hide Size;
      hide StringCode;
      LiteralAtom(pat, regparse, regnpar);
      var len := 1;
      if pat[regparse] == BACKSLASH {
        if regparse + 1 == |pat| {
          return Err(TrailingBackslash);
        }
        regparse := regparse + 1;
        OneSlice(pat, regparse);
      } else {
        len := OrdinaryRun(pat, regparse);
        if len == 0 {
          return Err(StrcspnZero);
        }
        if len > 1 && IsRepn(Peek(pat, regparse + len)) {
          len := len - 1;
        }
      }
      LiteralCode(pat[regparse..regparse + len]);
      var ret := RegLiteral(len);
      r := Ret(ret, Flags(true, len == 1, false));
    }

    method RegPiece() returns (r: Result)
      requires Valid() && Room(ParsePiece(pat, regparse, regnpar))
      modifies this`regparse, this`regnpar, this`regcode, this`regsize, program
      ensures Compiled(ParsePiece(pat, old(regparse), old(regnpar)), old(Now()), r)
      decreases |pat| - regparse, 1
    {
      hide Adds;
      hide Emit;
      hide Wf;
      ghost var a, goal := Now(), ParsePiece(pat, regparse, regnpar);
      ghost var atom := ParseAtom(pat, regparse, regnpar);
      r := RegAtom();
      if r.Err? {
        return;
      }
      ghost var x := atom.v;
      AddsCode(a, Now(), Emit(x, 0));
      var ret, flags, op := r.at, r.flags, Peek(pat, regparse);
      if !IsRepn(op) {
        return;
      }
      if !flags.width && op != QUESTION {
        return Err(EmptyRepeat);
      }
      RegRepeated(ret, flags.simple, op, x, a);
      regparse := regparse + 1;
      if IsRepn(Peek(pat, regparse)) {
        return Err(NestedRepeat);
      }
      r := Ret(ret, Flags(op == PLUS_SIGN, false, op != QUESTION));
    }

    lemma RepeatedCode(op: int, x: Re)
      requires IsRepn(op)
      ensures Simple(x) && op == ASTERISK ==> Emit(Repeat(op, x), 0) == Node(STAR, 0) + Emit(x, 0)
      ensures Simple(x) && op == PLUS_SIGN ==> Emit(Repeat(op, x), 0) == Node(PLUS, 0) + Emit(x, 0)
    {
    }

    method RegRepeated(ret: int, simple: bool, op: int, ghost x: Re, ghost a: Snap)
      requires Valid() && Wf(x) && IsRepn(op) && Fits(Size(Repeat(op, x)) - Size(x))
      requires ret == a.code && Adds(a, Now(), Emit(x, 0)) && simple == Simple(x)
      modifies this`regcode, this`regsize, program
      ensures Valid() && Adds(a, Now(), Emit(Repeat(op, x), 0))
    {
      hide Adds;
      hide Emit;
      hide Wf;
      RepeatedCode(op, x);
      if op == ASTERISK && simple {
        RegInsert(STAR, ret, a, Emit(x, 0));
      } else if op == ASTERISK {
        LoopStar(ret, x, a);
      } else if op == PLUS_SIGN && simple {
        RegInsert(PLUS, ret, a, Emit(x, 0));
      } else if op == PLUS_SIGN {
        LoopPlus(ret, x, a);
      } else {
        LoopOpt(ret, x, a);
      }
    }

    ghost predicate RoomB(p: Parsed<Branch>)
      reads this
    {
      regcode != DUMMY ==> p.Ok? && regcode + 3 + SizeB(p.v) <= program.Length
    }

    ghost predicate CompiledB(p: Parsed<Branch>, was: Snap, r: Result)
      reads this, program
    {
      match p
      case Bad(e) => r == Err(e)
      case Ok(b, pos, npar) =>
        && r == Ret(was.code, FlagsOfB(b))
        && Valid() && regparse == pos && regnpar == npar
        && Adds(was, Now(), OpenB(b))
    }

    method RegBranch() returns (r: Result)
      requires Valid() && RoomB(ParseBranch(pat, regparse, regnpar, Nil))
      modifies this`regparse, this`regnpar, this`regcode, this`regsize, program
      ensures CompiledB(ParseBranch(pat, old(regparse), old(regnpar), Nil), old(Now()), r)
      decreases |pat| - regparse, 2
    {
      hide Adds;
      hide Emit;
      ghost var a, goal := Now(), ParseBranch(pat, regparse, regnpar, Nil);
      ghost var acc, init, last := Nil, Nil, Nothing;
      AddsNothing(a);
      var ret := RegNode(BRANCH, a, []);
      assert [] + Node(BRANCH, 0) == OpenB(acc);
      AddsCode(a, Now(), OpenB(acc));
      var flags, chain := WORST, NULL;
      while !IsStop(Peek(pat, regparse))
        invariant Valid() && old(regparse) <= regparse && WfB(acc) && Adds(a, Now(), OpenB(acc))
        invariant ParseBranch(pat, regparse, regnpar, acc) == goal
        invariant chain == NULL <==> acc.Nil?
        invariant acc.Cons? ==> acc == Snoc(init, last) && Wf(last)
        invariant acc.Cons? ==> chain == if a.code == DUMMY then DUMMY else a.code + 3 + SizeB(init)
        invariant flags == FlagsOfB(acc)
        decreases |pat| - regparse
      {
        AddsCode(a, Now(), OpenB(acc));
        if a.code != DUMMY {
          PieceFits(pat, regparse, regnpar, acc);
        }
        ghost var was, pr := Now(), ParsePiece(pat, regparse, regnpar);
        var latest := RegPiece();
        if latest.Err? {
          return latest;
        }
        ghost var p := pr.v;
        AddsThen(a, was, Now(), OpenB(acc), Emit(p, 0));
        SnocWf(acc, p);
        flags := Flags(flags.width || latest.flags.width, false,
                       if chain == NULL then latest.flags.spstart else flags.spstart);
        LinkPiece(chain, latest.at, a, acc, init, last, p);
        chain := latest.at;
        init, last, acc := acc, p, Snoc(acc, p);
      }
      AddsCode(a, Now(), OpenB(acc));
      if chain == NULL {
        EmptyBranch();
        var _ := RegNode(NOTHING, a, OpenB(Nil));
      }
      r := Ret(ret, flags);
    }

    /** Link the pieces read so far, if any, to the piece just read. */
    lemma OpenFirst(p: Re)
      ensures OpenB(Nil) + Emit(p, 0) == OpenB(Snoc(Nil, p))
    {
      hide Emit;
      hide Node;
      assert EmitB(Nil, 0) == [] && EmitB(Cons(p, Nil), 0) == Emit(p, 0);
    }

    method LinkPiece(chain: int, latest: int, ghost a: Snap, ghost acc: Branch, ghost init: Branch, ghost last: Re,
                     ghost p: Re)
      requires Valid() && Adds(a, Now(), OpenB(acc) + Emit(p, 0))
      requires chain == NULL <==> acc.Nil?
      requires acc.Cons? ==> acc == Snoc(init, last) && Wf(last)
      requires acc.Cons? ==> chain == if a.code == DUMMY then DUMMY else a.code + 3 + SizeB(init)
      requires a.code != DUMMY ==> latest == a.code + 3 + SizeB(acc)
      modifies program
      ensures Valid() && Adds(a, Now(), OpenB(Snoc(acc, p)))
    {
      hide OpenB;
      hide Snoc;
      hide TailAt;
      hide SizeB;
      hide Wf;
      hide Has;
      hide Adds;
      hide Emit;
      hide SetLink;
      hide Loose;
      ghost var code := OpenB(acc) + Emit(p, 0);
      AddsCode(a, Now(), code);
      if chain != NULL {
        PieceStep(init, last, p);
        SizeSnoc(init, last);
        RegTail(chain, latest, a, code, 3 + SizeB(init), 3 + SizeB(init) + TailAt(last), Onward(last));
      } else {
        OpenFirst(p);
      }
    }

    /** Link the opening node of a group to its first alternative. */
    method LinkOpen(paren: bool, open: int, br: int, ghost op: int, ghost b: Branch, ghost a: Snap) returns (ret: int)
      requires Valid() && op != BACK && op != BRANCH
      requires Adds(a, Now(), (if paren then Node(op, 0) else []) + OpenB(b))
      requires if paren then open == a.code else br == a.code
      requires a.code != DUMMY && paren ==> br == a.code + 3
      modifies program
      ensures Valid() && ret == a.code
      ensures Adds(a, Now(), Before(paren, op) + EmitA(ANil, -1) + OpenB(b))
    {
      hide Adds;
      hide OpenB;
      hide Loose;
      hide SetLink;
      if paren {
        OpenStep(op, b);
        RegTail(open, br, a, Node(op, 0) + OpenB(b), 0, 0, 3);
        ret := open;
      } else {
        assert [] + [] + OpenB(b) == [] + OpenB(b);
        ret := br;
      }
    }

    /** Pick up the alternatives of a choice, linking them together. */
    method PickBranches(paren: bool, open: int, ghost op: int, ghost a: Snap)
      returns (r: Result, ghost acc: Alts, ghost last: Branch)
      requires Valid() && op != BACK && op != BRANCH
      requires Adds(a, Now(), if paren then Node(op, 0) else []) && (paren ==> open == a.code)
      requires var p := ParseAlts(pat, regparse, regnpar, ANil);
               a.code != DUMMY ==> p.Ok? && regcode + SizeA(p.v) <= program.Length
      modifies this`regparse, this`regnpar, this`regcode, this`regsize, program
      ensures match ParseAlts(pat, old(regparse), old(regnpar), ANil)
              case Bad(e) => r == Err(e)
              case Ok(alts, pos, npar) =>
                && alts == SnocA(acc, last) && WfA(acc)
                && r == Ret(a.code, FlagsOfA(alts))
                && Valid() && regparse == pos && regnpar == npar
                && Adds(a, Now(), Before(paren, op) + EmitA(acc, -1) + OpenB(last))
      decreases |pat| - regparse, 3
    {
      hide Adds;
      hide EmitA;
      hide OpenB;
      hide Before;
      ghost var pre, goal, p0 := Before(paren, op), ParseAlts(pat, regparse, regnpar, ANil), regparse;
      acc, last := ANil, Nil;
      AddsCode(a, Now(), if paren then Node(op, 0) else []);
      if a.code != DUMMY {
        AltsGrow(pat, regparse, regnpar, ANil);
      }
      ghost var first, was := ParseBranch(pat, regparse, regnpar, Nil), Now();
      var br := RegBranch();
      if br.Err? {
        return br, acc, last;
      }
      last := first.v;
      AddsThen(a, was, Now(), if paren then Node(op, 0) else [], OpenB(last));
      var ret := LinkOpen(paren, open, br.at, op, last, a);
      var flags := Flags(br.flags.width, false, br.flags.spstart);
      SnocAWf(acc, last);
      while Peek(pat, regparse) == BAR
        invariant Valid() && p0 <= regparse && IsStop(Peek(pat, regparse))
        invariant WfA(acc) && last.Cons? && WfB(last) && WfA(SnocA(acc, last))
        invariant MoreAlts(pat, regparse, regnpar, SnocA(acc, last)) == goal
        invariant flags == FlagsOfA(SnocA(acc, last))
        invariant Adds(a, Now(), pre + EmitA(acc, -1) + OpenB(last))
        decreases |pat| - regparse
      {
        regparse := regparse + 1;
        ghost var b;
        br, b := NextBranch(ret, pre, acc, last, goal, a);
        if br.Err? {
          return br, acc, last;
        }
        flags := Flags(flags.width && br.flags.width, false, flags.spstart || br.flags.spstart);
        SnocAWf(SnocA(acc, last), b);
        acc, last := SnocA(acc, last), b;
      }
      r := Ret(ret, flags);
    }

    /** Another alternative, linked to the ones before it. */
    method NextBranch(ret: int, ghost pre: Cells, ghost acc: Alts, ghost last: Branch, ghost goal: Parsed<Alts>,
                      ghost a: Snap)
      returns (r: Result, ghost b: Branch)
      requires Valid() && IsPre(pre) && WfA(acc) && WfA(SnocA(acc, last)) && ret == a.code
      requires Adds(a, Now(), pre + EmitA(acc, -1) + OpenB(last))
      requires goal == ParseAlts(pat, regparse, regnpar, SnocA(acc, last))
      requires a.code != DUMMY ==> goal.Ok? && a.code + |pre| + SizeA(goal.v) <= program.Length
      modifies this`regparse, this`regnpar, this`regcode, this`regsize, program
      ensures match ParseBranch(pat, old(regparse), old(regnpar), Nil)
              case Bad(e) => r == Err(e) && goal == Bad(e)
              case Ok(b', pos, npar) =>
                && b' == b && r.Ret? && r.flags == FlagsOfB(b)
                && Valid() && regparse == pos && regnpar == npar
                && Adds(a, Now(), pre + EmitA(SnocA(acc, last), -1) + OpenB(b))
      decreases |pat| - regparse, 3
    {
      hide Adds;
      hide EmitA;
      hide OpenB;
      hide SetLink;
      hide Loose;
      hide IsPre;
      b := Nil;
      ghost var sofar := pre + EmitA(acc, -1) + OpenB(last);
      AddsCode(a, Now(), sofar);
      SizeSnocA(acc, last);
      if a.code != DUMMY {
        AltsGrow(pat, regparse, regnpar, SnocA(acc, last));
      }
      ghost var was, p := Now(), ParseBranch(pat, regparse, regnpar, Nil);
      r := RegBranch();
      if r.Err? {
        return;
      }
      b := p.v;
      AddsThen(a, was, Now(), sofar, OpenB(b));
      AddsCode(a, Now(), sofar + OpenB(b));
      AltStep(pre, acc, last, OpenB(b));
      RegTail(ret, r.at, a, sofar + OpenB(b), 0, |pre| + SizeA(acc), 3 + SizeB(last));
    }

    /** Make a closing node, and hook the alternatives and their tails to it. */
    method CloseBranches(ret: int, e: int, ghost pre: Cells, ghost acc: Alts, ghost last: Branch, ghost a: Snap)
      requires Valid() && Fits(3) && IsPre(pre) && WfA(acc) && WfA(SnocA(acc, last)) && ret == a.code
      requires Adds(a, Now(), pre + EmitA(acc, -1) + OpenB(last)) && e != BRANCH && e != BACK
      modifies this`regcode, this`regsize, program
      ensures Valid() && Adds(a, Now(), pre + EmitA(SnocA(acc, last), 0) + Node(e, 0))
    {
      hide Adds;
      hide EmitA;
      hide OpenB;
      hide SetLink;
      hide Loose;
      hide IsPre;
      hide Node;
      ghost var sofar, alts := pre + EmitA(acc, -1) + OpenB(last), SnocA(acc, last);
      AddsCode(a, Now(), sofar);
      SizeSnocA(acc, last);
      var ender := RegNode(e, a, sofar);
      AddsCode(a, Now(), sofar + Node(e, 0));
      AltStep(pre, acc, last, Node(e, 0));
      RegTail(ret, ender, a, sofar + Node(e, 0), 0, |pre| + SizeA(acc), 3 + SizeB(last));
      HookTails(ret, ender, e, pre, alts, a);
    }

    function NextNode(br: int): int
      requires br == DUMMY || (0 <= br && br + 2 < program.Length)
      reads this, program
    {
      if br == DUMMY then NULL else RegNext(program[..], br)
    }

    /** Hook the tails of the alternatives to the closing node. */
    method HookTails(ret: int, ender: int, ghost e: int, ghost pre: Cells, ghost alts: Alts, ghost a: Snap)
      requires Valid() && IsPre(pre) && WfA(alts) && ret == a.code && e != BRANCH && e != BACK
      requires Adds(a, Now(), pre + EmitA(alts, -1) + Node(e, 0))
      requires a.code != DUMMY ==> ender == a.code + |pre| + SizeA(alts)
      modifies program
      ensures Valid() && Adds(a, Now(), pre + EmitA(alts, 0) + Node(e, 0))
    {
      hide Adds;
      hide EmitA;
      hide Hooked;
      hide LinkAt;
      hide IsPre;
      ghost var done, rest := ANil, alts;
      HookedEnds(pre, alts, e);
      AddsCode(a, Now(), Hooked(pre, done, rest, e));
      var br := ret;
      while br != NULL
        invariant Valid() && WfA(rest) && AppendA(done, rest) == alts && SizeA(done) + SizeA(rest) == SizeA(alts)
        invariant Adds(a, Now(), Hooked(pre, done, rest, e))
        invariant a.code == DUMMY ==> br == DUMMY || br == NULL
        invariant a.code != DUMMY && br != NULL ==> a.code <= br <= ender && HookPlace(pre, done, br - a.code)
        invariant a.code != DUMMY && br == NULL ==> rest == ANil
        decreases if br == NULL then 0 else if br == DUMMY then 1 else ender + 4 - br
      {
        br, done, rest := HookTail(br, ender, e, pre, done, rest, a);
      }
      AppendSnocA(done, Nil, rest);
      if a.code == DUMMY {
        AddsCounted(a, Now(), Hooked(pre, done, rest, e), Hooked(pre, alts, ANil, e));
      }
    }

    /** One step of HookTails: the node br, and the node it leads to. */
    method HookTail(br: int, ender: int, ghost e: int, ghost pre: Cells, ghost done: Alts, ghost rest: Alts,
                    ghost a: Snap)
      returns (next: int, ghost done': Alts, ghost rest': Alts)
      requires Valid() && WfA(rest) && IsPre(pre) && e != BRANCH && e != BACK
      requires Adds(a, Now(), Hooked(pre, done, rest, e))
      requires if a.code == DUMMY then br == DUMMY else HookPlace(pre, done, br - a.code)
      requires a.code != DUMMY ==> a.code <= br && ender == a.code + |pre| + SizeA(done) + SizeA(rest)
      modifies program
      ensures Valid() && WfA(rest') && AppendA(done', rest') == AppendA(done, rest)
      ensures SizeA(done') + SizeA(rest') == SizeA(done) + SizeA(rest)
      ensures Adds(a, Now(), Hooked(pre, done', rest', e))
      ensures a.code == DUMMY || next == NULL ==> next == NULL && (a.code != DUMMY ==> rest' == ANil)
      ensures next != NULL ==> br < next <= ender && next == a.code + |pre| + SizeA(done')
    {
      hide Adds;
      hide Loose;
      hide SetLink;
      hide LinkAt;
      hide Hooked;
      hide Has;
      ghost var code := Hooked(pre, done, rest, e);
      AddsCode(a, Now(), code);
      ghost var q := if a.code == DUMMY then |pre| + SizeA(done) else br - a.code;
      ghost var n, v;
      n, v, done', rest' := HookPlan(pre, done, rest, e, q);
      RegOpTail(br, ender, a, code, q, n, v);
      if br != DUMMY {
        AddsHas(a, Now(), Hooked(pre, done', rest', e));
        NodeMoved(program[..], a.code, Hooked(pre, done', rest', e), q);
      }
      next := NextNode(br);
    }

    /** What follows a choice: its closing parenthesis, or the end of the pattern. */
    ghost predicate RoomA(p: Parsed<Alts>)
      reads this
    {
      regcode != DUMMY ==> p.Ok? && regcode + SizeA(p.v) + 3 <= program.Length
    }

    ghost predicate CompiledTop(p: Parsed<Alts>, was: Snap, r: Result)
      reads this, program
    {
      match p
      case Bad(e) => r == Err(e)
      case Ok(alts, pos, npar) =>
        && r == Ret(was.code, FlagsOfA(alts))
        && Valid() && regparse == pos && regnpar == npar
        && Adds(was, Now(), EmitA(alts, 0) + Node(END, 0))
    }

    /** The main body of a pattern, or a parenthesised thing from behind its parenthesis. */
    method Reg(paren: bool) returns (r: Result)
      requires Valid()
      requires paren ==> Room(ParseGroup(pat, regparse, regnpar))
      requires !paren ==> RoomA(ParseEnd(pat, ParseAlts(pat, regparse, regnpar, ANil)))
      modifies this`regparse, this`regnpar, this`regcode, this`regsize, program
      ensures paren ==> Compiled(ParseGroup(pat, old(regparse), old(regnpar)), old(Now()), r)
      ensures !paren ==>
                CompiledTop(ParseEnd(pat, ParseAlts(pat, old(regparse), old(regnpar), ANil)), old(Now()), r)
      decreases |pat| - regparse, 4
    {
      hide Adds;
      hide EmitA;
      hide OpenB;
      hide Before;
      hide Emit;
      hide ParseAlts;
      hide SnocA;
      hide WfA;
      hide Node;
      ghost var a := Now();
      AddsNothing(a);
      var parno, ret := 0, regcode;
      if paren {
        if regnpar >= NSUBEXP {
          return Err(TooManyParens);
        }
        parno := regnpar;
        regnpar := regnpar + 1;
        ret := RegNode(SUB_OPEN + parno, a, []);
        assert [] + Node(SUB_OPEN + parno, 0) == Node(SUB_OPEN + parno, 0);
        AddsCode(a, Now(), Node(SUB_OPEN + parno, 0));
      }
      ghost var acc, last;
      r, acc, last := PickBranches(paren, ret, SUB_OPEN + parno, a);
      if r.Err? {
        return;
      }
      ghost var pre := Before(paren, SUB_OPEN + parno);
      AddsCode(a, Now(), pre + EmitA(acc, -1) + OpenB(last));
      SizeSnocA(acc, last);
      CloseBranches(r.at, if paren then SUB_CLOSE + parno else END, pre, acc, last, a);
      if paren {
        if Peek(pat, regparse) != RPAREN {
          return Err(UnterminatedParen);
        }
        regparse := regparse + 1;
        GroupForm(parno, SnocA(acc, last));
      } else if Peek(pat, regparse) != NUL {
        return Err(if Peek(pat, regparse) == RPAREN then UnmatchedParen else JunkOnEnd);
      } else {
        TopForm(SUB_OPEN + parno, SnocA(acc, last));
      }
    }
  }
}
