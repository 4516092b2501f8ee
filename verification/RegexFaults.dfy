/**
 Why a pattern is refused: each of the compiler's complaints names a place in the
 pattern where the fault it speaks of is found.
 */
module RegexFaults {
  import opened RegexSyntax
  import opened RegexSpelling

  /** Opening parentheses from i to j. */
  function Parens(pat: Text, i: nat, j: nat): nat
    requires i <= j <= |pat|
    decreases j - i
  {
    if i == j then 0 else Parens(pat, i, j - 1) + if pat[j - 1] == LPAREN then 1 else 0
  }

  /** Where a class begins, behind its bracket and caret. */
  function Inside(pat: Text, pos: nat): nat {
    if Peek(pat, pos + 1) == CARET then pos + 2 else pos + 1
  }

  /** An atom that ends at pos. */
  ghost predicate AtomBefore(x: Re, pat: Text, pos: nat) {
    pos <= |pat| && exists i: nat, n: nat, m: nat :: i <= pos && AtomAt(x, pat, i, pos, n, m)
  }

  /** Alternatives that take up all that is behind pos. */
  ghost predicate AltsBehind(a: Alts, pat: Text, pos: nat) {
    var i := pos + 1;
    i <= |pat| && exists n: nat, m: nat :: AltsAt(a, pat, i, |pat|, n, m)
  }

  /** The place is one that complaint e is about. */
  ghost predicate Fault(e: Error, pat: Text, pos: nat) {
    match e
    case TooManyParens => pos < |pat| && pat[pos] == LPAREN && Parens(pat, 0, pos) >= NSUBEXP - 1
    case UnterminatedParen =>
      pos < |pat| && pat[pos] == LPAREN && exists a :: AltsBehind(a, pat, pos)
    case UnmatchedParen =>
      pos < |pat| && pat[pos] == RPAREN && exists a: Alts, m: nat :: AltsAt(a, pat, 0, pos, 1, m)
    case EmptyRepeat =>
      (Peek(pat, pos) == ASTERISK || Peek(pat, pos) == PLUS_SIGN) && exists x :: !HasWidth(x) && AtomBefore(x, pat, pos)
    case NestedRepeat => IsRepn(Peek(pat, pos)) && IsRepn(Peek(pat, pos + 1)) && exists x :: AtomBefore(x, pat, pos)
    case InvalidRange => 0 < pos < |pat| - 1 && pat[pos] == HYPHEN && pat[pos - 1] > pat[pos + 1] != RBRACKET
    case UnmatchedBracket =>
      Peek(pat, pos) == LBRACKET && forall k :: Inside(pat, pos) < k < |pat| ==> pat[k] != RBRACKET
    case RepeatFollowsNothing => IsRepn(Peek(pat, pos)) && Begins(pat, pos)
    case TrailingBackslash => pos + 1 == |pat| && pat[pos] == BACKSLASH
    case _ => false
  }

  /** An alternative begins here. */
  predicate Begins(pat: Text, pos: nat) {
    pos == 0 || Peek(pat, pos - 1) == LPAREN || Peek(pat, pos - 1) == BAR
  }

  /** The complaint, if there is one, is about some place. */
  ghost predicate Founded<T>(r: Parsed<T>, pat: Text) {
    r.Bad? ==> exists pos: nat :: Fault(r.e, pat, pos)
  }

  // ----- groups opened and parentheses passed -----

  lemma {:induction false} ParensSplit(pat: Text, i: nat, c: nat, j: nat)
    requires i <= c <= j <= |pat|
    ensures Parens(pat, i, j) == Parens(pat, i, c) + Parens(pat, c, j)
    decreases j - c
  {
    if c < j {
      ParensSplit(pat, i, c, j - 1);
    }
  }

  lemma {:induction false} AtomParens(re: Re, pat: Text, i: nat, j: nat, n: nat, m: nat)
    requires i <= j <= |pat| && AtomAt(re, pat, i, j, n, m)
    ensures m <= n + Parens(pat, i, j)
    decreases re, 0
  {
    hide AltsAt;
    if re.Group? {
      AltsParens(re.alts, pat, i + 1, j - 1, n + 1, m);
      ParensSplit(pat, i, i + 1, j - 1);
      ParensSplit(pat, i, i, i + 1);
    }
  }

  lemma {:induction false} PieceParens(re: Re, pat: Text, i: nat, j: nat, n: nat, m: nat)
    requires i <= j <= |pat| && PieceAt(re, pat, i, j, n, m)
    ensures m <= n + Parens(pat, i, j)
    decreases re, 1
  {
    hide AtomAt;
    match re
    case Star(x) => AtomParens(x, pat, i, j - 1, n, m);
    case Plus(x) => AtomParens(x, pat, i, j - 1, n, m);
    case Opt(x) => AtomParens(x, pat, i, j - 1, n, m);
    case _ => AtomParens(re, pat, i, j, n, m);
  }

  lemma {:induction false} PiecesParens(b: Branch, pat: Text, i: nat, j: nat, n: nat, m: nat)
    requires i <= j <= |pat| && PiecesAt(b, pat, i, j, n, m)
    ensures m <= n + Parens(pat, i, j)
    decreases b, 0
  {
    hide PieceAt;
    if b.Cons? {
      var c: nat, k: nat :| i <= c <= j && PieceAt(b.head, pat, i, c, n, k) && PiecesAt(b.tail, pat, c, j, k, m);
      PieceParens(b.head, pat, i, c, n, k);
      PiecesParens(b.tail, pat, c, j, k, m);
      ParensSplit(pat, i, c, j);
    }
  }

  lemma {:induction false} BranchParens(b: Branch, pat: Text, i: nat, j: nat, n: nat, m: nat)
    requires i <= j <= |pat| && BranchAt(b, pat, i, j, n, m)
    ensures m <= n + Parens(pat, i, j)
    decreases b, 1
  {
    if i < j {
      PiecesParens(b, pat, i, j, n, m);
    }
  }

  /** Group numbers rise with opening parentheses. */
  lemma {:induction false} AltsParens(a: Alts, pat: Text, i: nat, j: nat, n: nat, m: nat)
    requires i <= j <= |pat| && AltsAt(a, pat, i, j, n, m)
    ensures m <= n + Parens(pat, i, j)
    decreases a
  {
    hide BranchAt;
    if a.rest.ANil? {
      BranchParens(a.first, pat, i, j, n, m);
    } else {
      var c: nat, k: nat :| i <= c < j && pat[c] == BAR && BranchAt(a.first, pat, i, c, n, k) &&
                            AltsAt(a.rest, pat, c + 1, j, k, m);
      BranchParens(a.first, pat, i, c, n, k);
      AltsParens(a.rest, pat, c + 1, j, k, m);
      ParensSplit(pat, i, c, j);
      ParensSplit(pat, c, c + 1, j);
    }
  }

  // ----- the complaints -----

  lemma {:induction false} ClassFault(pat: Text, pos: nat, npar: nat, acc: Text, from: nat)
    requires Peek(pat, from) == LBRACKET && Inside(pat, from) < pos <= |pat|
    requires forall k :: Inside(pat, from) < k < pos ==> pat[k] != RBRACKET
    ensures Founded(ParseClass(pat, pos, npar, acc), pat)
    decreases |pat| - pos
  {
    var c := Peek(pat, pos);
    if c == NUL {
      assert Fault(UnmatchedBracket, pat, from);
    } else if c != RBRACKET {
      var hi := Peek(pat, pos + 1);
      if c != HYPHEN {
        ClassFault(pat, pos + 1, npar, acc + [c], from);
      } else if hi == RBRACKET || hi == NUL {
        ClassFault(pat, pos + 1, npar, acc + [HYPHEN], from);
      } else if pat[pos - 1] <= hi {
        ClassFault(pat, pos + 2, npar, acc + After(pat[pos - 1], hi), from);
      } else {
        assert Fault(InvalidRange, pat, pos);
      }
    }
  }

  lemma BracketFault(pat: Text, from: nat, npar: nat)
    requires Peek(pat, from) == LBRACKET
    ensures Founded(ParseBracket(pat, Inside(pat, from), npar), pat)
  {
    var pos := Inside(pat, from);
    if pos == |pat| {
      assert Fault(UnmatchedBracket, pat, from);
    } else {
      var c := pat[pos];
      assert [] + [c] == [c];
      assert ParseBracket(pat, pos, npar) == ParseClass(pat, pos + 1, npar, [c]);
      ClassFault(pat, pos + 1, npar, [c], from);
    }
  }

  lemma {:induction false} GroupFault(pat: Text, pos: nat, npar: nat)
    requires Peek(pat, pos) == LPAREN && 0 < npar <= 1 + Parens(pat, 0, pos)
    ensures Founded(ParseGroup(pat, pos + 1, npar), pat)
    decreases |pat| - pos, 0
  {
    hide ParseAlts;
    hide AltsAt;
    if npar >= NSUBEXP {
      assert Fault(TooManyParens, pat, pos);
    } else {
      AltsFault(pat, pos + 1, npar + 1, ANil);
      var r := ParseAlts(pat, pos + 1, npar + 1, ANil);
      if r.Ok? && Peek(pat, r.pos) != RPAREN {
        AltsSpelled(pat, pos + 1, pos + 1, npar + 1, npar + 1, ANil);
        assert AltsBehind(r.v, pat, pos);
        assert Fault(UnterminatedParen, pat, pos);
      }
    }
  }

  lemma {:induction false} AtomFault(pat: Text, pos: nat, npar: nat)
    requires pos <= |pat| && 0 < npar <= 1 + Parens(pat, 0, pos) && !IsStop(Peek(pat, pos))
    requires IsRepn(Peek(pat, pos)) ==> Begins(pat, pos)
    ensures Founded(ParseAtom(pat, pos, npar), pat)
    decreases |pat| - pos, 1
  {
    hide Fault;
    hide ParseGroup;
    hide ParseBracket;
    hide OrdinaryRun;
    var c := Peek(pat, pos);
    if c == LBRACKET {
      BracketFault(pat, pos, npar);
    } else if c == LPAREN {
      GroupFault(pat, pos, npar);
    } else if IsRepn(c) {
      RepeatFault(pat, pos);
    } else if c == BACKSLASH && pos + 1 == |pat| {
      BackslashFault(pat, pos);
    }
  }

  lemma RepeatFault(pat: Text, pos: nat)
    requires IsRepn(Peek(pat, pos)) && Begins(pat, pos)
    ensures Fault(RepeatFollowsNothing, pat, pos)
  {
  }

  lemma BackslashFault(pat: Text, pos: nat)
    requires pos + 1 == |pat| && pat[pos] == BACKSLASH
    ensures Fault(TrailingBackslash, pat, pos)
  {
  }

  lemma {:induction false} PieceFault(pat: Text, pos: nat, npar: nat)
    requires pos <= |pat| && 0 < npar <= 1 + Parens(pat, 0, pos) && !IsStop(Peek(pat, pos))
    requires IsRepn(Peek(pat, pos)) ==> Begins(pat, pos)
    ensures Founded(ParsePiece(pat, pos, npar), pat)
    decreases |pat| - pos, 2
  {
    hide ParseAtom;
    hide AtomAt;
    AtomFault(pat, pos, npar);
    var r := ParseAtom(pat, pos, npar);
    if r.Ok? {
      AtomSpelled(pat, pos, npar);
      assert AtomBefore(r.v, pat, r.pos);
      var e := ParsePiece(pat, pos, npar);
      if e.Bad? {
        assert Fault(e.e, pat, r.pos);
      }
    }
  }

  lemma {:induction false} BranchFault(pat: Text, pos: nat, npar: nat, acc: Branch)
    requires pos <= |pat| && 0 < npar <= 1 + Parens(pat, 0, pos) && WfB(acc)
    requires IsRepn(Peek(pat, pos)) ==> Begins(pat, pos)
    ensures Founded(ParseBranch(pat, pos, npar, acc), pat)
    decreases |pat| - pos, 3
  {
    hide ParsePiece;
    hide PieceAt;
    hide Fault;
    if !IsStop(Peek(pat, pos)) {
      PieceFault(pat, pos, npar);
      var p := ParsePiece(pat, pos, npar);
      if p.Ok? {
        PieceSpelled(pat, pos, npar);
        PieceParens(p.v, pat, pos, p.pos, npar, p.npar);
        ParensSplit(pat, 0, pos, p.pos);
        NotRepeated(p.v, pat, pos, p.pos, npar, p.npar);
        SnocWf(acc, p.v);
        BranchFault(pat, p.pos, p.npar, Snoc(acc, p.v));
      }
    }
  }

  lemma NotRepeated(re: Re, pat: Text, i: nat, j: nat, n: nat, m: nat)
    requires i <= j <= |pat| && PieceAt(re, pat, i, j, n, m)
    ensures !IsRepn(Peek(pat, j))
  {
    hide AtomAt;
  }

  lemma {:induction false} AltsFault(pat: Text, pos: nat, npar: nat, acc: Alts)
    requires pos <= |pat| && 0 < npar <= 1 + Parens(pat, 0, pos) && WfA(acc) && Begins(pat, pos)
    ensures Founded(ParseAlts(pat, pos, npar, acc), pat)
    decreases |pat| - pos, 4
  {
    hide ParseBranch;
    hide BranchAt;
    hide Fault;
    BranchFault(pat, pos, npar, Nil);
    var b := ParseBranch(pat, pos, npar, Nil);
    if b.Ok? {
      SnocAWf(acc, b.v);
      if Peek(pat, b.pos) == BAR {
        assert PiecesAt(Nil, pat, pos, pos, npar, npar);
        BranchSpelled(pat, pos, pos, npar, npar, Nil);
        BranchParens(b.v, pat, pos, b.pos, npar, b.npar);
        ParensSplit(pat, 0, pos, b.pos);
        AltsFault(pat, b.pos + 1, b.npar, SnocA(acc, b.v));
      }
    }
  }

  /** A pattern is refused with a complaint only where the fault it names is there. */
  lemma {:induction false} RefusalFounded(pat: Text)
    requires Parse(pat).Bad?
    ensures exists pos: nat :: Fault(Parse(pat).e, pat, pos)
  {
    hide ParseAlts;
    hide AltsAt;
    AltsFault(pat, 0, 1, ANil);
    var r := ParseAlts(pat, 0, 1, ANil);
    if r.Ok? {
      AltsSpelled(pat, 0, 0, 1, 1, ANil);
      assert Fault(UnmatchedParen, pat, r.pos);
    }
  }

  /** The compiler's three internal errors are never reported. */
  lemma NoInternalError(pat: Text)
    ensures var r := Parse(pat); r.Bad? ==> r.e != JunkOnEnd && r.e != Unexpected && r.e != StrcspnZero
  {
    hide Parse;
    if Parse(pat).Bad? {
      RefusalFounded(pat);
    }
  }
}
